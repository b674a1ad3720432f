// The word of a descriptor that packs its length with three flags.
module FlagLen {
  import Bits
  import opened Scatter
  import opened Plan
  import opened Ring
  import opened QueueSpec
  import opened QueueInv
  import opened QueueRuns
  import opened Aftermath

  const LEN_BITS: nat := 28
  const DV_BIT: nat := 28
  const SOP_BIT: nat := 29
  const EOP_BIT: nat := 30

  /** The word as the engine builds it: length, valid flag, then the flags that close
      and open a pass. */
  function Word(len: nat, dv: bool, sop: bool, eop: bool): nat {
    var filled := if dv then Bits.Or(len, Bits.Pow(DV_BIT)) else len;
    var closed := if eop then Bits.Or(filled, Bits.Pow(EOP_BIT)) else filled;
    if sop then Bits.Or(closed, Bits.Pow(SOP_BIT)) else closed
  }

  function WordOf(d: Desc): nat {
    Word(d.len, d.dv, d.sop, d.eop)
  }

  function Bit(w: nat, k: nat): bool {
    w / Bits.Pow(k) % 2 == 1
  }

  function LenOf(w: nat): nat {
    w % Bits.Pow(LEN_BITS)
  }

  /** Joining a bit that is clear adds it. */
  lemma {:induction false} OrBit(x: nat, k: nat)
    requires !Bit(x, k)
    ensures Bits.Or(x, Bits.Pow(k)) == x + Bits.Pow(k)
  {
    var p := Bits.Pow(k);
    if k > 0 {
      var h := Bits.Pow(k - 1);
      Halve(x, h);
      OrBit(x / 2, k - 1);
      OrUnfold(x, h);
    } else {
      OrUnfoldOne(x);
    }
  }

  lemma Halve(x: nat, h: nat)
    requires h > 0
    ensures x / (2 * h) == x / 2 / h
  {
    Bits.ModByHalves(x, h);
    var q := x / 2 / h;
    assert x / 2 == q * h + x / 2 % h;
    Bits.ModUnique(x, 2 * h, q, x % 2 + 2 * (x / 2 % h));
  }

  lemma OrUnfold(x: nat, h: nat)
    requires h > 0
    ensures Bits.Or(x, 2 * h) == x % 2 + 2 * Bits.Or(x / 2, h)
  {
    assert 2 * h % 2 == 0 && 2 * h / 2 == h;
  }

  lemma OrUnfoldOne(x: nat)
    requires x % 2 == 0
    ensures Bits.Or(x, 1) == x + 1
  {
    if x > 0 {
      assert Bits.Or(x / 2, 0) == x / 2;
    }
  }

  lemma FlagValues()
    ensures Bits.Pow(28) == 0x1000_0000 && Bits.Pow(29) == 0x2000_0000 && Bits.Pow(30) == 0x4000_0000
  {
    assert Bits.Pow(4) == 16 && Bits.Pow(1) == 2;
    Bits.PowAdd(4, 4);
    Bits.PowAdd(8, 4);
    Bits.PowAdd(12, 12);
    Bits.PowAdd(24, 4);
    Bits.PowAdd(1, 28);
    Bits.PowAdd(1, 29);
  }

  /** The word of a length that fits. */
  lemma WordIs(len: nat, dv: bool, sop: bool, eop: bool)
    requires len < 0x1000_0000
    ensures Word(len, dv, sop, eop)
         == len + (if dv then 0x1000_0000 else 0) + (if sop then 0x2000_0000 else 0) + (if eop then 0x4000_0000 else 0)
  {
    hide Bits.Or;
    FlagValues();
    OrBit(len, 28);
    var filled := if dv then len + 0x1000_0000 else len;
    OrBit(filled, 30);
    var closed := if eop then filled + 0x4000_0000 else filled;
    OrBit(closed, 29);
  }

  /** The places of a sum of flags above a length that fits. */
  lemma SumParts(len: nat, d: nat, s: nat, e: nat)
    requires len < 0x1000_0000 && d < 2 && s < 2 && e < 2
    ensures var w := len + d * 0x1000_0000 + s * 0x2000_0000 + e * 0x4000_0000;
            && w % 0x1000_0000 == len && w / 0x1000_0000 % 2 == d
            && w / 0x2000_0000 % 2 == s && w / 0x4000_0000 % 2 == e && w < U32
  {
  }

  /** The word gives back the length exactly when it fits its field, and then the three
      flags as well. */
  lemma WordRoundTripIff(len: nat, dv: bool, sop: bool, eop: bool)
    ensures LenOf(Word(len, dv, sop, eop)) == len <==> len < 0x1000_0000
    ensures len < 0x1000_0000 ==>
              var w := Word(len, dv, sop, eop);
              Bit(w, DV_BIT) == dv && Bit(w, SOP_BIT) == sop && Bit(w, EOP_BIT) == eop && w < U32
  {
    hide Bits.Or, Bits.Pow, Word;
    FlagValues();
    if len < 0x1000_0000 {
      WordIs(len, dv, sop, eop);
      SumParts(len, if dv then 1 else 0, if sop then 1 else 0, if eop then 1 else 0);
    }
  }

  /** A bit of a disjunction is set when it is set in either part. */
  lemma {:induction false} OrBits(x: nat, y: nat, k: nat)
    ensures Bit(Bits.Or(x, y), k) == (Bit(x, k) || Bit(y, k))
    decreases k
  {
    OrHalves(x, y);
    if k > 0 {
      var h := Bits.Pow(k - 1);
      Halve(Bits.Or(x, y), h);
      Halve(x, h);
      Halve(y, h);
      OrBits(x / 2, y / 2, k - 1);
    }
  }

  lemma OrHalves(x: nat, y: nat)
    ensures Bits.Or(x, y) / 2 == Bits.Or(x / 2, y / 2)
    ensures (Bits.Or(x, y) % 2 == 1) == (x % 2 == 1 || y % 2 == 1)
  {
  }

  lemma PowBit(k: nat)
    ensures Bit(Bits.Pow(k), k)
  {
    Bits.ModUnique(Bits.Pow(k), Bits.Pow(k), 1, 0);
  }

  /** The valid bit is set in the word of a valid descriptor, whatever its length. */
  lemma ValidWord(len: nat, sop: bool, eop: bool)
    ensures Bit(Word(len, true, sop, eop), DV_BIT)
  {
    hide Bits.Or, Bits.Pow, Bit;
    PowBit(DV_BIT);
    OrBits(len, Bits.Pow(DV_BIT), DV_BIT);
    var filled := Bits.Or(len, Bits.Pow(DV_BIT));
    OrBits(filled, Bits.Pow(EOP_BIT), DV_BIT);
    var closed := if eop then Bits.Or(filled, Bits.Pow(EOP_BIT)) else filled;
    OrBits(closed, Bits.Pow(SOP_BIT), DV_BIT);
  }

  // ------------------------------------------------------------ which queues are safe

  /** No transfer of a plan is longer than the queue's aperture. */
  lemma PlanLengths(r: Request, keyhole: nat, n: nat)
    requires r.count == Total(r.sgl) && n < |Whole(r, keyhole)|
    ensures Whole(r, keyhole)[n].len <= Aperture(keyhole)
  {
    if r.count > 0 {
      StepOfPlan(r, keyhole, 0, n);
    }
  }

  ghost predicate LengthsFit(keyhole: nat) {
    forall r: Request, n: nat :: WellFormed(r, keyhole) && n < |Whole(r, keyhole)| ==>
      LenOf(Word(Whole(r, keyhole)[n].len, true, false, false)) == Whole(r, keyhole)[n].len
  }

  /** The check at queue start asks only that a keyhole be a power of two. The length
      field is safe for every request exactly when the keyhole is also below 2^28. */
  lemma LengthsFitIff(keyhole: nat)
    requires keyhole < U32
    ensures LengthsFit(keyhole) <==> keyhole < 0x1000_0000
  {
    hide Word, LenOf, Whole;
    if keyhole < 0x1000_0000 {
      forall r: Request, n: nat | WellFormed(r, keyhole) && n < |Whole(r, keyhole)|
        ensures LenOf(Word(Whole(r, keyhole)[n].len, true, false, false)) == Whole(r, keyhole)[n].len
      {
        PlanLengths(r, keyhole, n);
        WordRoundTripIff(Whole(r, keyhole)[n].len, true, false, false);
      }
    } else {
      var r := Request(0, 0x1000_0000, [Sg(0x1000_0000, 0)], true);
      LongTransfer(r, keyhole);
      WordRoundTripIff(0x1000_0000, true, false, false);
    }
  }

  lemma LongTransfer(r: Request, keyhole: nat)
    requires 0x1000_0000 <= keyhole < U32 && r == Request(0, 0x1000_0000, [Sg(0x1000_0000, 0)], true)
    ensures WellFormed(r, keyhole) && |Whole(r, keyhole)| > 0 && Whole(r, keyhole)[0].len == 0x1000_0000
  {
    assert Prefix(r.sgl, 0) == 0 && Prefix(r.sgl, 1) == 0x1000_0000;
    assert Whole(r, keyhole)[0] == StepAt(r, keyhole, 0);
    EntryUnique(r.sgl, 0, 0);
  }

  // ------------------------------------------------------------ over runs

  ghost predicate Short(s: State) {
    forall p :: 0 <= p < |s.log| ==> s.log[p].len <= Aperture(s.conf.keyhole)
  }

  lemma {:induction false} FromLengths(r: Request, keyhole: nat, o: nat)
    requires r.count == Total(r.sgl)
    ensures forall n :: 0 <= n < |From(r, keyhole, o)| ==> From(r, keyhole, o)[n].len <= Aperture(keyhole)
    decreases r.count - o
  {
    if o < r.count {
      FromLengths(r, keyhole, o + StepLen(r, keyhole, o));
    }
  }

  lemma IssueLengths(s: State)
    requires IssueEnabled(s) && Short(s)
    ensures Short(IssueStep(s))
  {
    hide WriteRing, From;
    var cb := s.work[0];
    FromLengths(cb.req, s.conf.keyhole, cb.offset);
    var xs := IssueXfers(s);
    forall n | 0 <= n < |xs|
      ensures xs[n].len <= Aperture(s.conf.keyhole)
    {
      assert xs[n] == Needed(cb, s.conf.keyhole)[n];
      if cb.req.count == 0 {
        PlanLengths(cb.req, s.conf.keyhole, n);
      }
    }
  }

  lemma StepShort(s: State, e: Event)
    requires ConfOk(s.conf) && Enabled(s, e) && Short(s)
    ensures Short(Step(s, e))
  {
    hide IssueStep, CompleteStep, StopEndStep, Linked, PartialCharge;
    match e
    case Issue => IssueLengths(s);
    case Complete => CompleteFrame(s);
    case StopEnd(_) => StopFrame(s);
    case _ =>
  }

  lemma {:induction false} RunShort(s: State, es: seq<Event>)
    requires ConfOk(s.conf) && Possible(s, es) && Short(s)
    ensures Short(Run(s, es))
    decreases |es|
  {
    hide Step, Enabled, Short;
    if |es| > 0 {
      StepShort(s, es[0]);
      RunShort(Step(s, es[0]), es[1..]);
    }
  }

  /** On such a queue, in every reachable state, each descriptor the hardware may
      fetch is in its slot, and its packed word says the length it was logged with. */
  lemma HardwareReadsLength(s: State, i: nat)
    requires Reachable(s) && s.ring != [] && s.conf.keyhole < 0x1000_0000
    requires s.hardware <= i < s.published
    ensures i < |s.log| && |s.ring| == s.conf.rngsz
    ensures var d := s.ring[Slot(i, s.conf.rngsz)];
            d == s.log[i] && LenOf(WordOf(d)) == d.len
  {
    hide Word, LenOf, Run, Possible;
    HardwareSeesTheLog(s, i);
    var es :| Possible(Init(s.conf), es) && s == Run(Init(s.conf), es);
    RunShort(Init(s.conf), es);
    WordRoundTripIff(s.log[i].len, s.log[i].dv, s.log[i].sop, s.log[i].eop);
  }

  ghost predicate AllValid(s: State) {
    forall p :: 0 <= p < |s.log| ==> s.log[p].dv
  }

  lemma StepValid(s: State, e: Event)
    requires ConfOk(s.conf) && Enabled(s, e) && AllValid(s)
    ensures AllValid(Step(s, e))
  {
    hide CompleteStep, StopEndStep, Linked, PartialCharge, WriteRing, IssueXfers;
    match e
    case Complete => CompleteFrame(s);
    case StopEnd(_) => StopFrame(s);
    case _ =>
  }

  lemma {:induction false} RunValid(s: State, es: seq<Event>)
    requires ConfOk(s.conf) && Possible(s, es) && AllValid(s)
    ensures AllValid(Run(s, es))
    decreases |es|
  {
    hide Step, Enabled, AllValid;
    if |es| > 0 {
      StepValid(s, es[0]);
      RunValid(Step(s, es[0]), es[1..]);
    }
  }

  /** In every reachable state, each descriptor the hardware may fetch has the valid bit
      set in the word of its slot. */
  lemma HardwareSeesValid(s: State, i: nat)
    requires Reachable(s) && s.ring != [] && s.hardware <= i < s.published
    ensures |s.ring| == s.conf.rngsz > 0 && Bit(WordOf(s.ring[Slot(i, s.conf.rngsz)]), DV_BIT)
  {
    hide Word, Bit, Run, Possible;
    HardwareSeesTheLog(s, i);
    var es :| Possible(Init(s.conf), es) && s == Run(Init(s.conf), es);
    RunValid(Init(s.conf), es);
    ValidWord(s.log[i].len, s.log[i].sop, s.log[i].eop);
  }

  /** An issue pass marks its first descriptor as opening and its last as closing it, and
      no other; and it stops only when the request is fully issued or the ring is full. */
  lemma PassMarks(s: State)
    requires Reachable(s) && IssueEnabled(s)
    ensures var t := IssueStep(s);
            && |s.log| < |t.log| && t.log[..|s.log|] == s.log
            && (forall p :: |s.log| <= p < |t.log| ==>
                  t.log[p].sop == (p == |s.log|) && t.log[p].eop == (p == |t.log| - 1))
            && (t.avail == 0 || |t.pend| == |s.pend| + 1)
  {
    hide Reachable, IssueStep, IssueEnabled, PassDescs;
    ReachableLists(s);
    PassWhole(s);
    PassLog(s);
    MarksAre(s.log, s.conf, IssueXfers(s));
  }

  lemma ReachableLists(s: State)
    requires Reachable(s)
    ensures ListInv(s) && MapInv(s)
  {
    hide Reachable, ListInv, MapInv, EpochInv, OutcomeInv, CountInv, RingInv, BookInv;
    ReachableInv(s);
  }

  lemma PassLog(s: State)
    requires IssueEnabled(s)
    ensures IssueStep(s).log == s.log + PassDescs(s.conf, IssueXfers(s))
  {
    hide PassDescs, IssueXfers, WriteRing, IssueCb, IssueCount;
  }

  lemma MarksAre(log: seq<Desc>, c: Conf, xs: seq<Xfer>)
    ensures var now := log + PassDescs(c, xs);
            && |now| == |log| + |xs| && now[..|log|] == log
            && forall p :: |log| <= p < |now| ==>
                 now[p].sop == (p == |log|) && now[p].eop == (p == |now| - 1)
  {
  }

  lemma PassWhole(s: State)
    requires ListInv(s) && MapInv(s) && IssueEnabled(s)
    ensures |IssueXfers(s)| > 0
    ensures IssueStep(s).avail == 0 || |IssueStep(s).pend| == |s.pend| + 1
  {
    hide ListInv, MapInv, WriteRing, PassDescs, Needed;
    IssuePass(s);
    if IssueCount(s) < s.avail {
      HeadAll(s);
    }
  }

  lemma HeadAll(s: State)
    requires ListInv(s) && MapInv(s) && IssueEnabled(s) && IssueCount(s) < s.avail
    ensures IssueCb(s).offset >= s.work[0].req.count
  {
    hide LinkInv, MapInv, Linked, WriteRing, Needed;
    IssuePass(s);
    HeadRequest(s);
    NeededIsTail(s.work[0], s.conf.keyhole);
  }
}
