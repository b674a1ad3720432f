// The stream transmit path's way of filling its ring: a request is cut into pieces of
// at most a packet; each goes into the current slot, and the flags of the slot after it
// are cleared ahead of time.
module Stream {
  import opened Ring
  import opened Scatter
  import opened Plan
  import Bits

  const ZERO_CDH: nat := 13

  datatype Piece = Piece(src: nat, len: nat)
  datatype StDesc = StDesc(cdhFlags: nat, pldLen: nat, len: nat, flags: nat, src: nat)

  function DescOf(p: Piece): StDesc {
    StDesc(ZERO_CDH, p.len, p.len, 0, p.src)
  }

  /** The addresses of the bytes a list of descriptors makes hardware read, in order. */
  function BytesRead(ds: seq<StDesc>): seq<int> {
    if |ds| == 0 then []
    else
      var d := ds[|ds| - 1];
      BytesRead(ds[..|ds| - 1]) + seq(d.len, j => d.src + j)
  }

  /** The bytes of a list of pieces, in order. */
  function BytesOf(ps: seq<Piece>): seq<int> {
    if |ps| == 0 then []
    else
      var p := ps[|ps| - 1];
      BytesOf(ps[..|ps| - 1]) + seq(p.len, j => p.src + j)
  }

  /** The descriptors in `k` consecutive slots from position `p` on. */
  function Window(ring: seq<StDesc>, p: nat, k: nat): (ds: seq<StDesc>)
    requires |ring| > 0
    ensures |ds| == k
  {
    seq(k, j requires 0 <= j < k => ring[Slot(p + j, |ring|)])
  }

  lemma {:induction false} SameBytes(ds: seq<StDesc>, ps: seq<Piece>)
    requires |ds| == |ps| && forall j :: 0 <= j < |ps| ==> ds[j].src == ps[j].src && ds[j].len == ps[j].len
    ensures BytesRead(ds) == BytesOf(ps)
  {
    if |ps| > 0 {
      SameBytes(ds[..|ds| - 1], ps[..|ps| - 1]);
    }
  }

  /** The bus addresses of `n` bytes of a scatter list from byte `o` on. */
  function HostBytes(sgl: seq<Sg>, o: nat, n: nat): (bs: seq<int>)
    requires o + n <= Total(sgl)
    ensures |bs| == n
  {
    seq(n, b requires 0 <= b < n => HostAddr(sgl, o + b))
  }

  /** A piece of one entry continues the bytes before it. */
  lemma NextPiece(sgl: seq<Sg>, o: nat, n: nat, ps: seq<Piece>, i: nat, p: Piece)
    requires i < |sgl| && Prefix(sgl, i) <= o + n && o + n + p.len <= Prefix(sgl, i + 1) <= Total(sgl)
    requires p.src == sgl[i].dma + (o + n - Prefix(sgl, i))
    requires BytesOf(ps) == HostBytes(sgl, o, n)
    ensures BytesOf(ps + [p]) == HostBytes(sgl, o, n + p.len)
  {
    hide Prefix, HostAddr, EntryOf;
    assert (ps + [p])[..|ps|] == ps;
    var bs := HostBytes(sgl, o, n + p.len);
    forall b | n <= b < n + p.len
      ensures bs[b] == p.src + (b - n)
    {
      HostAddrInEntry(sgl, i, o + b);
    }
    assert bs == HostBytes(sgl, o, n) + seq(p.len, j => p.src + j);
  }

  /** A piece is a whole packet or runs to the end of an entry, and holds a byte if the
      list does. */
  ghost predicate Cut(sgl: seq<Sg>, pktsz: nat, src: nat, len: nat) {
    && (len == pktsz || (len < pktsz && exists i :: 0 <= i < |sgl| && src + len == sgl[i].dma + sgl[i].len))
    && (len == 0 ==> Total(sgl) == 0)
  }

  /** Without the bypass option no flag but the header mark is ever set, so joining
      the mark onto a slot left from an earlier lap changes nothing else. */
  ghost predicate Clean(d: StDesc) {
    d.flags == 0 && (d.cdhFlags == 0 || d.cdhFlags == ZERO_CDH)
  }

  lemma MarkIs(d: StDesc)
    requires Clean(d)
    ensures Bits.Or(d.cdhFlags, ZERO_CDH) == ZERO_CDH
  {
    assert Bits.Or(0, ZERO_CDH) == ZERO_CDH;
    assert Bits.Or(ZERO_CDH, ZERO_CDH) == ZERO_CDH by {
      assert Bits.Or(1, 1) == 1 && Bits.Or(3, 3) == 3 && Bits.Or(6, 6) == 6;
    }
  }

  class TxRing {
    const desc: array<StDesc>
    var pidx: nat
    var avail: nat
    ghost var produced: nat
    ghost var consumed: nat

    /** The hardware owns positions from `consumed` up to `produced`; one slot of the
        ring is always left out of use. */
    ghost predicate Valid()
      reads this, desc
    {
      && desc.Length >= 2
      && consumed <= produced && avail + 1 + (produced - consumed) == desc.Length
      && pidx == Slot(produced, desc.Length)
      && forall q :: 0 <= q < desc.Length ==> Clean(desc[q])
    }

    constructor (n: nat)
      requires n >= 2
      ensures Valid() && fresh(desc) && desc.Length == n && produced == consumed == 0
    {
      desc := new StDesc[n](_ => StDesc(0, 0, 0, 0, 0));
      pidx, avail, produced, consumed := 0, n - 1, 0, 0;
    }

    /** Completion gives back slots the hardware is done with. */
    method Release(cr: nat)
      requires Valid() && cr <= produced - consumed
      modifies this`avail, this`consumed
      ensures Valid() && consumed == old(consumed) + cr && avail == old(avail) + cr
    {
      avail := avail + cr;
      consumed := consumed + cr;
    }

    /** Fill the slot of position `pos`, step on, and clear the next slot's flags
        unless the step went around. */
    method WriteOne(at: nat, piece: Piece, ghost pos: nat) returns (next: nat)
      requires desc.Length >= 2 && at == Slot(pos, desc.Length) && Clean(desc[at])
      requires Clean(desc[Slot(pos + 1, desc.Length)])
      modifies desc
      ensures next == Slot(pos + 1, desc.Length)
      ensures desc[at] == DescOf(piece)
      ensures desc[at].src == piece.src && desc[at].len == desc[at].pldLen == piece.len
      ensures desc[at].cdhFlags == 13 && desc[at].flags == 0
      ensures desc[next] == if next == 0 then old(desc[0]) else old(desc[next]).(flags := 0, cdhFlags := 0)
      ensures forall q :: 0 <= q < desc.Length && q != at && q != next ==> desc[q] == old(desc[q])
    {
      hide Bits.Or;
      SlotStep(pos, 1, desc.Length);
      MarkIs(desc[at]);
      desc[at] := StDesc(Bits.Or(desc[at].cdhFlags, ZERO_CDH), piece.len, piece.len, desc[at].flags, piece.src);
      next := at + 1;
      if next == desc.Length {
        next := 0;
      } else {
        desc[next] := desc[next].(flags := 0, cdhFlags := 0);
      }
    }

    /** Put one request's pieces into the ring until they or the space run out. Slots
        the hardware owns keep their contents, and so do the free ones after the slot
        looked ahead to. */
    method Fill(pieces: seq<Piece>) returns (descCnt: nat)
      requires Valid() && avail > 0
      modifies this, desc
      ensures Valid() && descCnt == Min(|pieces|, old(avail))
      ensures consumed == old(consumed) && produced == old(produced) + descCnt
      ensures avail == old(avail) - descCnt
      ensures forall p :: old(produced) <= p < produced ==>
                var d, piece := desc[Slot(p, desc.Length)], pieces[p - old(produced)];
                && d.src == piece.src && d.len == d.pldLen == piece.len
                && d.cdhFlags == 13 && d.flags == 0
      ensures BytesRead(Window(desc[..], old(produced), descCnt)) == BytesOf(pieces[..descCnt])
      ensures forall i :: old(consumed) <= i < old(produced) ==>
                desc[Slot(i, desc.Length)] == old(desc[Slot(i, desc.Length)])
      ensures forall i :: produced < i < consumed + desc.Length ==>
                desc[Slot(i, desc.Length)] == old(desc[Slot(i, desc.Length)])
    {
      hide Slot, Filling, BytesOf, BytesRead, Window;
      var n, descMax := desc.Length, avail;
      ghost var was := desc[..];
      descCnt := 0;
      desc[pidx] := desc[pidx].(flags := 0, cdhFlags := 0);
      FillingStarts(was, desc[..], consumed, produced, pieces);
      while descCnt < |pieces| && descCnt < descMax
        invariant descCnt <= Min(|pieces|, descMax)
        invariant avail == descMax && consumed == old(consumed) && produced == old(produced)
        invariant pidx == Slot(produced + descCnt, n)
        invariant forall q :: 0 <= q < n ==> Clean(desc[q])
        invariant Filling(was, desc[..], consumed, produced, pieces, descCnt)
      {
        ghost var before := desc[..];
        pidx := WriteOne(pidx, pieces[descCnt], produced + descCnt);
        FillingSteps(was, before, desc[..], consumed, produced, pieces, descCnt);
        descCnt := descCnt + 1;
      }
      FilledWindow(was, desc[..], consumed, produced, pieces, descCnt);
      avail := avail - descCnt;
      produced := produced + descCnt;
    }

    /** Cut what is left of one entry into pieces of at most a packet, until the entry or
        the space is used up. An empty entry still makes one piece. */
    method SplitEntry(at: nat, cnt0: nat, tlen0: nat, src0: nat, pktsz: nat, max: nat, ghost was: seq<StDesc>,
                      ghost sgl: seq<Sg>, ghost o: nat, ghost i: nat, moved0: nat, ghost ps0: seq<Piece>)
      returns (next: nat, cnt: nat, tlen: nat, moved: nat, ghost ps: seq<Piece>)
      requires pktsz > 0 && cnt0 < max && consumed <= produced && produced + max < consumed + desc.Length
      requires desc.Length >= 2 && at == Slot(produced + cnt0, desc.Length)
      requires forall q :: 0 <= q < desc.Length ==> Clean(desc[q])
      requires |ps0| == cnt0 && Filling(was, desc[..], consumed, produced, ps0, cnt0)
      requires forall j :: 0 <= j < |ps0| ==> Cut(sgl, pktsz, ps0[j].src, ps0[j].len)
      requires i < |sgl| && Prefix(sgl, i) <= o + moved0 && o + moved0 + tlen0 == Prefix(sgl, i + 1) <= Total(sgl)
      requires src0 == sgl[i].dma + (o + moved0 - Prefix(sgl, i))
      requires BytesOf(ps0) == HostBytes(sgl, o, moved0) && (tlen0 == 0 ==> Total(sgl) == 0)
      modifies desc
      ensures cnt0 < cnt <= max && (tlen == 0 || cnt == max) && next == Slot(produced + cnt, desc.Length)
      ensures forall q :: 0 <= q < desc.Length ==> Clean(desc[q])
      ensures |ps| == cnt && Filling(was, desc[..], consumed, produced, ps, cnt)
      ensures forall j :: 0 <= j < |ps| ==> Cut(sgl, pktsz, ps[j].src, ps[j].len)
      ensures moved0 <= moved && o + moved + tlen == Prefix(sgl, i + 1)
      ensures BytesOf(ps) == HostBytes(sgl, o, moved)
    {
      hide Slot, Filling, BytesOf, HostBytes, Prefix;
      var src := src0;
      next, cnt, tlen, moved, ps := at, cnt0, tlen0, moved0, ps0;
      while true
        invariant cnt0 <= cnt < max && next == Slot(produced + cnt, desc.Length)
        invariant forall q :: 0 <= q < desc.Length ==> Clean(desc[q])
        invariant |ps| == cnt && Filling(was, desc[..], consumed, produced, ps, cnt)
        invariant forall j :: 0 <= j < |ps| ==> Cut(sgl, pktsz, ps[j].src, ps[j].len)
        invariant moved0 <= moved && Prefix(sgl, i) <= o + moved && o + moved + tlen == Prefix(sgl, i + 1)
        invariant src == sgl[i].dma + (o + moved - Prefix(sgl, i))
        invariant BytesOf(ps) == HostBytes(sgl, o, moved)
        invariant tlen > 0 || (cnt == cnt0 && Total(sgl) == 0)
        decreases max - cnt
      {
        var len := Min(tlen, pktsz);
        ghost var p, before := Piece(src, len), desc[..];
        NextPiece(sgl, o, moved, ps, i, p);
        NextPrefix(sgl, i);
        FillingExtend(was, before, consumed, produced, ps, p, cnt);
        next := WriteOne(next, Piece(src, len), produced + cnt);
        FillingSteps(was, before, desc[..], consumed, produced, ps + [p], cnt);
        ps := ps + [p];
        moved, src, tlen, cnt := moved + len, src + len, tlen - len, cnt + 1;
        if cnt == max {
          break;
        }
        if tlen == 0 {
          break;
        }
      }
    }

    /** Put a request into the ring from byte `offset` on: its bytes are read once each
        and in order, by descriptors of at most a packet, until the list or the space
        runs out. */
    method FillRequest(sgl: seq<Sg>, count: nat, offset: nat, epAddr: nat) returns (descCnt: nat, moved: nat)
      requires Valid() && avail > 0
      requires Total(sgl) == count
      requires if count == 0 then |sgl| == 1 && offset == 0 else NonEmpty(sgl) && offset < count
      modifies this, desc
      ensures Valid() && 0 < descCnt <= old(avail) && avail == old(avail) - descCnt
      ensures consumed == old(consumed) && produced == old(produced) + descCnt
      ensures offset + moved <= count && (offset + moved == count || descCnt == old(avail))
      ensures BytesRead(Window(desc[..], old(produced), descCnt)) == HostBytes(sgl, offset, moved)
      ensures forall p :: old(produced) <= p < produced ==>
                var d := desc[Slot(p, desc.Length)];
                && d.len == d.pldLen && Cut(sgl, if epAddr != 0 then Min(epAddr, 4096) else 4096, d.src, d.len)
                && d.cdhFlags == 13 && d.flags == 0
      ensures forall i :: old(consumed) <= i < old(produced) ==>
                desc[Slot(i, desc.Length)] == old(desc[Slot(i, desc.Length)])
      ensures forall i :: produced < i < consumed + desc.Length ==>
                desc[Slot(i, desc.Length)] == old(desc[Slot(i, desc.Length)])
    {
      hide Slot, Filling, BytesOf, BytesRead, HostBytes, Window, EntryOf;
      var n, descMax := desc.Length, avail;
      var pktsz := if epAddr != 0 then Min(epAddr, 4096) else 4096;
      var found := FindOffset(sgl, count, offset);
      FoundIn(sgl, count, offset, found);
      var i: nat, skip: nat := found.value.0, found.value.1;
      ghost var was, ps := desc[..], [];
      descCnt, moved := 0, 0;
      desc[pidx] := desc[pidx].(flags := 0, cdhFlags := 0);
      FillingStarts(was, desc[..], consumed, produced, []);
      NoBytes(sgl, offset);
      while i < |sgl| && descCnt < descMax
        invariant i <= |sgl| && descCnt <= descMax && (i < |sgl| || descCnt > 0)
        invariant avail == descMax && consumed == old(consumed) && produced == old(produced)
        invariant pidx == Slot(produced + descCnt, n)
        invariant forall q :: 0 <= q < n ==> Clean(desc[q])
        invariant |ps| == descCnt && Filling(was, desc[..], consumed, produced, ps, descCnt)
        invariant forall j :: 0 <= j < |ps| ==> Cut(sgl, pktsz, ps[j].src, ps[j].len)
        invariant offset + moved <= count
        invariant descCnt < descMax ==> if i < |sgl| then skip <= sgl[i].len && Prefix(sgl, i) + skip == offset + moved
                                        else offset + moved == count
        invariant descCnt < descMax && i < |sgl| && count > 0 ==> skip < sgl[i].len
        invariant BytesOf(ps) == HostBytes(sgl, offset, moved)
        decreases |sgl| - i
      {
        PrefixMonotone(sgl, i + 1, |sgl|);
        var tlen: nat, src: nat := sgl[i].len - skip, sgl[i].dma + skip;
        skip := 0;
        pidx, descCnt, tlen, moved, ps :=
          SplitEntry(pidx, descCnt, tlen, src, pktsz, descMax, was, sgl, offset, i, moved, ps);
        i := i + 1;
      }
      FilledWindow(was, desc[..], consumed, produced, ps, descCnt);
      avail := avail - descCnt;
      produced := produced + descCnt;
    }
  }

  /** The walk finds the entry a request goes on with. */
  lemma FoundIn(sgl: seq<Sg>, count: nat, offset: nat, found: Option<(nat, nat)>)
    requires Total(sgl) == count
    requires if count == 0 then |sgl| == 1 && offset == 0 else NonEmpty(sgl) && offset < count
    requires count == 0 ==> found == Some((0, 0))
    requires count != 0 ==> found.Some? && found.value.0 < |sgl| && Prefix(sgl, found.value.0) + found.value.1 == offset
                            && found.value.1 < sgl[found.value.0].len
    ensures found.Some? && found.value.0 < |sgl| && found.value.1 <= sgl[found.value.0].len
    ensures count > 0 ==> found.value.1 < sgl[found.value.0].len
    ensures Prefix(sgl, found.value.0) + found.value.1 == offset
  {
  }

  lemma NextPrefix(sgl: seq<Sg>, i: nat)
    requires i < |sgl|
    ensures Prefix(sgl, i + 1) == Prefix(sgl, i) + sgl[i].len
  {
  }

  lemma NoBytes(sgl: seq<Sg>, o: nat)
    requires o <= Total(sgl)
    ensures BytesOf([]) == HostBytes(sgl, o, 0)
  {
  }

  lemma FillingExtend(was: seq<StDesc>, now: seq<StDesc>, consumed: nat, produced: nat,
                      pieces: seq<Piece>, p: Piece, k: nat)
    requires Filling(was, now, consumed, produced, pieces, k)
    ensures Filling(was, now, consumed, produced, pieces + [p], k)
  {
  }

  /** What the filled slots hold, and what they make hardware read. */
  lemma FilledWindow(was: seq<StDesc>, now: seq<StDesc>, consumed: nat, produced: nat, pieces: seq<Piece>, k: nat)
    requires Filling(was, now, consumed, produced, pieces, k)
    ensures |now| == |was| >= 2 && k <= |pieces|
    ensures forall p :: produced <= p < produced + k ==>
              var d := now[Slot(p, |was|)];
              && d.src == pieces[p - produced].src && d.len == d.pldLen == pieces[p - produced].len
              && d.cdhFlags == 13 && d.flags == 0
    ensures BytesRead(Window(now, produced, k)) == BytesOf(pieces[..k])
    ensures pieces[..|pieces|] == pieces
    ensures forall p :: consumed <= p < produced ==> now[Slot(p, |was|)] == was[Slot(p, |was|)]
    ensures forall p :: produced + k < p < consumed + |was| ==> now[Slot(p, |was|)] == was[Slot(p, |was|)]
  {
    hide Slot;
    forall p | produced <= p < produced + k
      ensures now[Slot(p, |was|)] == DescOf(pieces[p - produced])
    {
      var j := p - produced;
      assert now[Slot(produced + j, |was|)] == DescOf(pieces[j]);
    }
    assert forall j :: 0 <= j < k ==> Window(now, produced, k)[j] == DescOf(pieces[j]);
    SameBytes(Window(now, produced, k), pieces[..k]);
  }

  /** After `k` pieces the ring is as it was, except for the pieces and the slot looked
      ahead to. */
  ghost predicate Filling(was: seq<StDesc>, now: seq<StDesc>, consumed: nat, produced: nat,
                          pieces: seq<Piece>, k: nat) {
    var n := |was|;
    && n >= 2 && |now| == n && k <= |pieces| && consumed <= produced && produced + k < consumed + n
    && (forall j :: 0 <= j < k ==> now[Slot(produced + j, n)] == DescOf(pieces[j]))
    && (forall p :: consumed <= p < produced ==> now[Slot(p, n)] == was[Slot(p, n)])
    && (forall p :: produced + k < p < consumed + n ==> now[Slot(p, n)] == was[Slot(p, n)])
  }

  lemma FillingStarts(was: seq<StDesc>, now: seq<StDesc>, consumed: nat, produced: nat, pieces: seq<Piece>)
    requires |now| == |was| >= 2 && consumed <= produced < consumed + |was|
    requires forall q :: 0 <= q < |was| && q != Slot(produced, |was|) ==> now[q] == was[q]
    ensures Filling(was, now, consumed, produced, pieces, 0)
  {
    hide Slot;
    Apart(consumed, |was|);
  }

  lemma FillingSteps(was: seq<StDesc>, before: seq<StDesc>, now: seq<StDesc>, consumed: nat, produced: nat,
                     pieces: seq<Piece>, k: nat)
    requires Filling(was, before, consumed, produced, pieces, k)
    requires k < |pieces| && produced + k + 1 < consumed + |was| && |now| == |was|
    requires now[Slot(produced + k, |was|)] == DescOf(pieces[k])
    requires forall q :: 0 <= q < |was| && q != Slot(produced + k, |was|) && q != Slot(produced + k + 1, |was|) ==>
               now[q] == before[q]
    ensures Filling(was, now, consumed, produced, pieces, k + 1)
  {
    hide Slot;
    Apart(consumed, |was|);
  }

  /** Positions within one lap have slots of their own. */
  lemma Apart(base: nat, n: nat)
    requires n >= 2
    ensures forall i, j :: base <= i < j < base + n ==> Slot(i, n) != Slot(j, n)
  {
    forall i, j | base <= i < j < base + n
      ensures Slot(i, n) != Slot(j, n)
    {
      SlotDistinct(i, j, n);
    }
  }

  /** The slot looked ahead to is never one the hardware owns, nor one just filled:
      at most it is the slot the ring leaves out of use. */
  lemma SpareSlot(consumed: nat, produced: nat, k: nat, n: nat)
    requires n >= 2 && consumed <= produced && produced + k < consumed + n
    ensures forall i :: consumed <= i < produced + k ==> Slot(i, n) != Slot(produced + k, n)
  {
    forall i | consumed <= i < produced + k
      ensures Slot(i, n) != Slot(produced + k, n)
    {
      SlotDistinct(i, produced + k, n);
    }
  }

  /** Exactly when the ring has no space left does looking ahead reach it. */
  lemma LookAheadIff(consumed: nat, produced: nat, k: nat, n: nat)
    requires n >= 2 && consumed <= produced && produced + k <= consumed + n
    ensures (exists i :: consumed <= i < produced + k && Slot(i, n) == Slot(produced + k, n))
            <==> produced + k == consumed + n
  {
    if produced + k == consumed + n {
      SlotStep(consumed, n, n);
      assert Slot(consumed, n) == Slot(produced + k, n);
    } else {
      SpareSlot(consumed, produced, k, n);
    }
  }
}
