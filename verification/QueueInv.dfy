// Every step of the descriptor queue keeps its invariant.
module QueueInv {
  import opened Scatter
  import opened Plan
  import opened Ring
  import opened QueueSpec
  import Ledger

  // ------------------------------------------------------------ books

  /** Telling the first linked requests what they may be told keeps the book in order,
      and the rest of them linked. */
  lemma TellKeeps(b: Book, accepted: seq<Request>, linked: seq<Request>, os: seq<Outcome>)
    requires BookInv(b, accepted) && LinkInv(b, accepted, linked) && |os| <= |linked|
    requires forall j :: 0 <= j < |os| ==> Tellable(os[j], linked[j])
    ensures BookInv(Tell(b, os), accepted) && LinkInv(Tell(b, os), accepted, linked[|os|..])
  {
    hide Tellable, Agains;
    var k, t := Min(|os|, |b.stale|), Tell(b, os);
    forall i | |b.outcomes| <= i < |t.outcomes|
      ensures i < |accepted| && Tellable(t.outcomes[i], accepted[i])
    {
      assert accepted[|b.outcomes|..][i - |b.outcomes|] == linked[|b.stale|..][i - |b.outcomes|];
    }
    TellHaunts(b, accepted, linked, os);
    TellLinks(b, accepted, linked, os);
    forall j | 0 <= j < |t.stale|
      ensures Haunting(t, accepted, t.stale[j])
    {
      assert Haunting(b, accepted, b.stale[k + j]);
    }
  }

  lemma TellLinks(b: Book, accepted: seq<Request>, linked: seq<Request>, os: seq<Outcome>)
    requires LinkInv(b, accepted, linked) && |os| <= |linked|
    ensures LinkInv(Tell(b, os), accepted, linked[|os|..])
  {
    hide Agains;
    var k, t := Min(|os|, |b.stale|), Tell(b, os);
    assert |linked[|b.stale|..]| == |accepted[|b.outcomes|..]|;
    if |os| <= |b.stale| {
      assert linked[|os|..][|t.stale|..] == linked[|b.stale|..];
    } else {
      assert linked[|os|..] == linked[|b.stale|..][|os| - k..];
    }
  }

  lemma TellHaunts(b: Book, accepted: seq<Request>, linked: seq<Request>, os: seq<Outcome>)
    requires BookInv(b, accepted) && LinkInv(b, accepted, linked) && |os| <= |linked|
    requires |Tell(b, os).outcomes| <= |accepted|
    requires forall j :: 0 <= j < |os| ==> Tellable(os[j], linked[j])
    ensures forall a :: a in Tell(b, os).again ==>
              Haunting(Tell(b, os), accepted, a.id) && Tellable(a.outcome, accepted[a.id])
  {
    var t := Tell(b, os);
    forall a | a in t.again
      ensures Haunting(t, accepted, a.id) && Tellable(a.outcome, accepted[a.id])
    {
      if a !in b.again {
        var k := Min(|os|, |b.stale|);
        var j :| 0 <= j < k && a == Agains(b.stale[..k], os[..k])[j];
        assert Haunting(b, accepted, b.stale[j]);
      }
    }
  }

  lemma TellTwice(b: Book, os: seq<Outcome>, more: seq<Outcome>)
    ensures Tell(Tell(b, os), more) == Tell(b, os + more)
  {
    hide Tell;
    if |os| < |b.stale| {
      TellTwiceStale(b, os, more);
    } else {
      TellTwiceFresh(b, os, more);
    }
  }

  lemma TellTwiceStale(b: Book, os: seq<Outcome>, more: seq<Outcome>)
    requires |os| < |b.stale|
    ensures Tell(Tell(b, os), more) == Tell(b, os + more)
  {
    hide Agains, Tell;
    TellIs(b, os);
    var k, t := |os|, Tell(b, os);
    var l := Min(|more|, |t.stale|);
    TellIs(t, more);
    TellIs(b, os + more);
    assert os[..k] == os && os[k..] == [];
    assert b.stale[..k + l] == b.stale[..k] + t.stale[..l] && b.stale[k + l..] == t.stale[l..];
    assert (os + more)[..k + l] == os + more[..l] && (os + more)[k + l..] == more[l..];
    AgainsConcat(b.stale[..k], t.stale[..l], os, more[..l]);
  }

  lemma TellTwiceFresh(b: Book, os: seq<Outcome>, more: seq<Outcome>)
    requires |os| >= |b.stale|
    ensures Tell(Tell(b, os), more) == Tell(b, os + more)
  {
    hide Agains, Tell;
    TellIs(b, os);
    TellIs(Tell(b, os), more);
    TellIs(b, os + more);
    var k := |b.stale|;
    assert b.stale[k..] == [] && more[..0] == [] && more[0..] == more;
    assert (os + more)[..k] == os[..k] && (os + more)[k..] == os[k..] + more;
    AgainsNone();
  }

  lemma TellIs(b: Book, os: seq<Outcome>)
    ensures var k := Min(|os|, |b.stale|);
            Tell(b, os) == Book(b.outcomes + os[k..], b.stale[k..], b.again + Agains(b.stale[..k], os[..k]))
  {
  }

  lemma AgainsConcat(ids: seq<nat>, ids': seq<nat>, os: seq<Outcome>, os': seq<Outcome>)
    requires |ids| == |os| && |ids'| == |os'|
    ensures Agains(ids + ids', os + os') == Agains(ids, os) + Agains(ids', os')
  {
  }

  lemma AgainsNone()
    ensures Agains([], []) == []
  {
  }

  lemma TellFresh(b: Book, os: seq<Outcome>)
    requires b.stale == []
    ensures Tell(b, os) == b.(outcomes := b.outcomes + os)
  {
    assert os[0..] == os && Agains([], os[..0]) == [];
  }

  // ------------------------------------------------------------ completion

  lemma CompleteRing(s: State)
    requires RingInv(s)
    ensures RingInv(CompleteStep(s))
    ensures s.hardware == s.consumed ==> CompleteStep(s) == s
    ensures s.hardware != s.consumed ==>
              && s.pidx != s.cidx && s.writeback != s.cidx
              && WrappedDiff(s.writeback, s.cidx, s.conf.rngsz) == s.hardware - s.consumed
  {
    WrappedDiffTrue(s.consumed, s.hardware, s.conf.rngsz);
    WrappedDiffTrue(s.consumed, s.produced, s.conf.rngsz);
  }

  /** Paying requests changes the charge of at most the first one left. */
  lemma RetireCharges(pend: seq<Cb>, credit: nat)
    requires credit > 0 && forall i :: 0 <= i < |pend| ==> pend[i].descNr > 0
    ensures var (n, rest, c) := Retire(pend, credit);
            && Ledger.Pay(Charges(pend), credit) == (n, Charges(rest), c)
            && Requests(rest) == Requests(pend)[n..]
            && (FullyIssued(pend) ==> FullyIssued(rest))
            && (forall i :: 0 <= i < |rest| ==> rest[i].descNr > 0)
  {
    hide Ledger.Pay, Ledger.Sum, FullyIssued;
    Ledger.PaySpec(Charges(pend), credit);
    var (n, owed, c) := Ledger.Pay(Charges(pend), credit);
    var rest := Retire(pend, credit).1;
    assert Charges(rest) == owed;
    forall i | 0 <= i < |rest|
      ensures rest[i].req == pend[n + i].req && rest[i].offset == pend[n + i].offset && rest[i].descNr > 0
    {
      assert i > 0 ==> rest[i] == pend[n + i];
    }
    IssuedStay(pend, rest, n);
  }

  lemma IssuedStay(pend: seq<Cb>, rest: seq<Cb>, n: nat)
    requires n + |rest| == |pend|
    requires forall i :: 0 <= i < |rest| ==> rest[i].req == pend[n + i].req && rest[i].offset == pend[n + i].offset
    ensures FullyIssued(pend) ==> FullyIssued(rest)
    ensures Requests(rest) == Requests(pend)[n..]
  {
  }

  /** Fully issued requests are told their whole count. */
  lemma PaidOutcomes(pend: seq<Cb>, rest: seq<Request>, n: nat)
    requires FullyIssued(pend) && n <= |pend|
    ensures |DoneOutcomes(pend[..n])| <= |Requests(pend) + rest|
    ensures forall j :: 0 <= j < n ==> DoneOutcomes(pend[..n])[j] == Outcome((Requests(pend) + rest)[j].count, 0)
  {
  }

  /** A completion pass in terms of what it retires. */
  lemma CompleteParts(s: State)
    requires RingInv(s) && ListInv(s) && s.hardware != s.consumed
    ensures var s', cr := CompleteStep(s), s.hardware - s.consumed;
            var (n, rest, credit) := Retire(s.pend, s.credit + cr);
            && s'.pend == rest && s'.credit == credit && s'.consumed == s.hardware
            && s'.drained == DrainFlag(s, n, s'.avail)
            && BookOf(s') == Tell(BookOf(s), DoneOutcomes(s.pend[..n]))
            && Linked(s') == Linked(s)[n..] && CbInv(s'.pend, s'.work, s.conf.keyhole)
            && Ledger.Pay(Charges(s.pend), s.credit + cr) == (n, Charges(rest), credit)
  {
    hide Retire, Ledger.Pay, HeadInv, Untouched, Tell, DoneOutcomes;
    CompleteRing(s);
    hide RingInv;
    RetireCharges(s.pend, s.credit + (s.hardware - s.consumed));
  }

  lemma CompleteLists(s: State)
    requires RingInv(s) && ListInv(s) && OutcomeInv(s) && s.hardware != s.consumed
    ensures ListInv(CompleteStep(s)) && OutcomeInv(CompleteStep(s))
    ensures !s.online ==> CompleteStep(s).outcomes == s.outcomes
  {
    hide Retire, Ledger.Pay, CbInv, Linked, Tell, DoneOutcomes, RingInv, LinkInv, BookInv, CompleteStep;
    CompleteParts(s);
    CompleteFrame(s);
    RingOrder(s);
    var n := Retire(s.pend, s.credit + (s.hardware - s.consumed)).0;
    var os, b := DoneOutcomes(s.pend[..n]), BookOf(s);
    FullyIssuedIs(s);
    PaidOutcomes(s.pend, Requests(s.work), n);
    LinkedIs(s);
    TellKeeps(b, s.accepted, Linked(s), os);
    TellOutcomes(b, s.accepted, Linked(s), os);
  }

  lemma RingOrder(s: State)
    requires RingInv(s)
    ensures s.consumed <= s.hardware <= s.produced
  {
  }

  lemma CompleteFrame(s: State)
    ensures var s' := CompleteStep(s);
            s' == s.(cidx := s'.cidx, avail := s'.avail, credit := s'.credit, pend := s'.pend, drained := s'.drained,
                     doorbell := s'.doorbell, consumed := s'.consumed, outcomes := s'.outcomes, stale := s'.stale,
                     again := s'.again)
    ensures |s.outcomes| <= |CompleteStep(s).outcomes|
  {
  }

  lemma FullyIssuedIs(s: State)
    requires ListInv(s)
    ensures FullyIssued(s.pend)
  {
  }

  lemma LinkedIs(s: State)
    ensures Linked(s) == Requests(s.pend) + Requests(s.work)
  {
  }

  /** Those told for the first time are told their whole count. */
  lemma TellOutcomes(b: Book, accepted: seq<Request>, linked: seq<Request>, os: seq<Outcome>)
    requires LinkInv(b, accepted, linked) && |os| <= |linked|
    requires forall j :: 0 <= j < |os| ==> os[j] == Outcome(linked[j].count, 0)
    ensures var t := Tell(b, os);
            && |t.outcomes| <= |accepted| && b.outcomes <= t.outcomes
            && (forall i :: |b.outcomes| <= i < |t.outcomes| ==> t.outcomes[i] == Outcome(accepted[i].count, 0))
            && (|b.outcomes| == |accepted| ==> t.outcomes == b.outcomes)
  {
    var t := Tell(b, os);
    assert |linked[|b.stale|..]| == |accepted[|b.outcomes|..]|;
    forall i | |b.outcomes| <= i < |t.outcomes|
      ensures t.outcomes[i] == Outcome(accepted[i].count, 0)
    {
      assert accepted[|b.outcomes|..][i - |b.outcomes|] == linked[|b.stale|..][i - |b.outcomes|];
    }
  }

  lemma RosterBounds(s: State)
    requires RosterInv(s)
    ensures |s.stale| <= |s.carried| && s.epoch <= |s.outcomes| <= |s.accepted|
  {
  }

  lemma TellSizes(b: Book, os: seq<Outcome>)
    ensures var t := Tell(b, os);
            && |t.outcomes| - |t.stale| == |b.outcomes| - |b.stale| + |os|
            && |t.stale| <= |b.stale| && (t.stale == [] || |t.outcomes| == |b.outcomes|)
  {
  }

  /** Those retired leave the lists in the order of the roster. */
  lemma CompleteRoster(s: State)
    requires RingInv(s) && ListInv(s) && RosterInv(s) && s.hardware != s.consumed
    requires |s.outcomes| <= |CompleteStep(s).outcomes| <= |s.accepted|
    ensures RosterInv(CompleteStep(s)) && Roster(CompleteStep(s)) == Roster(s)
    ensures s.hardware > s.consumed
    ensures Retired(CompleteStep(s)) == Retired(s) + Retire(s.pend, s.credit + (s.hardware - s.consumed)).0
  {
    hide Retire, Tell, DoneOutcomes, Linked, CompleteStep, Ledger.Pay;
    CompleteParts(s);
    CompleteFrame(s);
    RingOrder(s);
    hide RingInv, CbInv, LinkInv;
    var n := Retire(s.pend, s.credit + (s.hardware - s.consumed)).0;
    TellSizes(BookOf(s), DoneOutcomes(s.pend[..n]));
    LinkedIs(s);
    assert Roster(s)[Retired(s)..][n..] == Roster(s)[Retired(s) + n..];
  }

  /** In an epoch begun without charged requests, paying keeps the ledger balanced. */
  lemma CompleteLedger(s: State)
    requires RingInv(s) && ListInv(s) && RosterInv(s) && LedgerInv(s) && s.hardware != s.consumed
    requires |s.outcomes| <= |CompleteStep(s).outcomes| <= |s.accepted|
    ensures RosterInv(CompleteStep(s)) && LedgerInv(CompleteStep(s))
  {
    hide Ledger.Balanced, Plans, Xfers, Retire, Ledger.Pay, Tell, DoneOutcomes, Linked, CompleteStep, RosterInv;
    CompleteRoster(s);
    CompleteParts(s);
    CompleteFrame(s);
    hide RingInv, CbInv, LinkInv, Roster, Retired;
    RosterBounds(s);
    Ledger.PayKeeps(Plans(Roster(s), s.conf.keyhole), Retired(s), Charges(s.pend), PartialCharge(s),
      s.credit, s.consumed, Xfers(s.conf, s.log), s.hardware - s.consumed);
  }

  /** When a pass empties the ring without raising the flag, no request was retired,
      so the credit it brought belongs to the partly issued head. */
  lemma CompleteFlagDown(s: State)
    requires RingInv(s) && RingInv(CompleteStep(s)) && ListInv(s) && s.hardware != s.consumed
    requires RosterInv(CompleteStep(s)) && LedgerInv(CompleteStep(s))
    ensures FlagDown(CompleteStep(s))
  {
    CompleteParts(s);
    IdleCredit(CompleteStep(s));
    hide Ledger.Balanced, Plans, Xfers, CbInv, LinkInv, Tell, DoneOutcomes, Linked, Retire, CompleteStep, LedgerInv,
         RosterInv;
    var s' := CompleteStep(s);
    if !s'.drained && s'.consumed == s'.produced {
      assert Charges(s'.pend) == [];
      assert |s.pend| == 0 && Charges(s.pend) == [];
    }
  }

  /** On an idle queue nothing is pending, and the partly issued head is charged for
      exactly the credit in hand. */
  lemma IdleCredit(s: State)
    requires RosterInv(s) && LedgerInv(s) && |s.log| == s.produced
    ensures s.consumed == s.produced ==> |s.pend| == 0 && PartialCharge(s) == s.credit
  {
    hide Ledger.Balanced, Plans, Xfers, RosterInv;
    RosterBounds(s);
    if s.consumed == s.produced {
      Ledger.Conservation(Plans(Roster(s), s.conf.keyhole), Retired(s), Charges(s.pend),
        PartialCharge(s), s.credit, s.consumed, Xfers(s.conf, s.log));
      assert Charges(s.pend) == [];
    }
  }

  lemma CompleteEpoch(s: State)
    requires RingInv(s) && ListInv(s) && OutcomeInv(s) && EpochInv(s) && s.hardware != s.consumed
    ensures EpochInv(CompleteStep(s))
  {
    hide LedgerInv, RosterInv, CbInv, CompleteStep, Retire, BookInv, LinkInv, FlagDown, DoneInv, RingInv;
    CompleteLists(s);
    CompleteFrame(s);
    CompleteParts(s);
    if s.online {
      OutcomeBound(CompleteStep(s));
      CompleteLedger(s);
      CompleteRing(s);
      CompleteFlagDown(s);
    } else {
      RingOrder(s);
      DoneKept(s);
    }
  }

  lemma DoneKept(s: State)
    requires RingInv(s) && DoneInv(s) && CompleteStep(s).outcomes == s.outcomes
    requires CompleteStep(s).consumed == s.hardware
    ensures DoneInv(CompleteStep(s))
  {
    hide CompleteStep, DoneInv;
    CompleteFrame(s);
    DoneStays(s, CompleteStep(s));
  }

  /** What is done stays done while the log is kept. */
  lemma DoneStays(s: State, s': State)
    requires DoneInv(s) && s'.outcomes == s.outcomes && s'.accepted == s.accepted && s'.log == s.log
    requires s'.epoch == s.epoch && s'.carried == s.carried && s'.conf == s.conf && s.consumed <= s'.consumed <= |s.log|
    ensures DoneInv(s')
  {
    hide Ledger.Join, Plans, Xfers, PlanOf;
    forall i | s'.epoch <= i < |s'.outcomes| && s'.outcomes[i].status == 0
      ensures DoneAt(s', i)
    {
      assert DoneAt(s, i);
    }
  }

  lemma CompleteKeeps(s: State)
    requires Inv(s)
    ensures Inv(CompleteStep(s))
  {
    hide EpochInv, ListInv, OutcomeInv, MapInv, Retire, CompleteStep;
    if s.ring == [] {
      CompleteNothing(s);
    } else {
      CompleteRing(s);
      CompleteFrame(s);
      CompleteRest(s);
      if s.hardware != s.consumed {
        CompleteLists(s);
        if !s.dirty {
          CompleteEpoch(s);
        }
      }
    }
  }

  lemma CompleteNothing(s: State)
    requires s.pidx == s.cidx
    ensures CompleteStep(s) == s
  {
  }

  lemma CompleteRest(s: State)
    ensures CountInv(s) ==> CountInv(CompleteStep(s))
    ensures MapInv(s) ==> MapInv(CompleteStep(s))
    ensures RingInv(s) && DrainSound(s) && Trustworthy(s.conf) ==> DrainSound(CompleteStep(s))
  {
    hide Tell, Retire;
    if RingInv(s) {
      CompleteRing(s);
    }
  }

  // ------------------------------------------------------------ issue

  /** What the head of the work list still needs is the tail of its plan. */
  lemma NeededIsTail(cb: Cb, k: nat)
    requires WellFormed(cb.req, k) && HeadInv(cb, k)
    ensures Needed(cb, k) == PlanOf(cb.req, k)[cb.descNr..]
  {
    if cb.req.count > 0 {
      ResumeFrom(cb.req, k, 0, cb.descNr);
    }
  }

  lemma EmptyPlan(r: Request, k: nat)
    requires WellFormed(r, k) && r.count == 0
    ensures |Whole(r, k)| == 1 && SumLen(Whole(r, k)[..0]) == 0 && SumLen(Whole(r, k)[..1]) == 0
  {
    var w := Whole(r, k);
    assert w[..1][..0] == w[..0] == [];
  }

  /** Issuing `n` more transfers keeps byte offset and charge in step, and the
      request is fully issued exactly when its plan is. */
  lemma IssueAdvances(cb: Cb, k: nat, n: nat)
    requires WellFormed(cb.req, k) && HeadInv(cb, k)
    requires cb.descNr + n <= |PlanOf(cb.req, k)| && n > 0
    ensures var plan := PlanOf(cb.req, k);
            var offset := cb.offset + SumLen(plan[cb.descNr..cb.descNr + n]);
            && offset == SumLen(plan[..cb.descNr + n]) <= cb.req.count
            && (offset == cb.req.count <==> cb.descNr + n == |plan|)
  {
    hide From, SumLen, StepAt, HostAddr;
    var w := Whole(cb.req, k);
    assert w[..cb.descNr + n] == w[..cb.descNr] + w[cb.descNr..cb.descNr + n];
    SumLenConcat(w[..cb.descNr], w[cb.descNr..cb.descNr + n]);
    if cb.req.count > 0 {
      ResumeFrom(cb.req, k, 0, cb.descNr + n);
      PlanExhausted(cb.req, k, 0, cb.descNr + n);
    } else {
      EmptyPlan(cb.req, k);
    }
  }

  lemma IssueRing(s: State)
    requires RingInv(s) && IssueEnabled(s)
    ensures RingInv(IssueStep(s))
  {
    hide PassDescs, IssueXfers, Needed, WriteRing;
    var n := s.conf.rngsz;
    var s' := IssueStep(s);
    var ds := PassDescs(s.conf, IssueXfers(s));
    SlotOfSlot(s.produced, |ds|, n);
    WriteRingFromSlot(s.ring, s.produced, ds);
    forall i | s'.consumed <= i < s'.produced
      ensures s'.ring[Slot(i, n)] == s'.log[i]
    {
      if i < s.produced {
        WriteRingMisses(s.ring, s.produced, ds, i);
      } else {
        WriteRingHits(s.ring, s.produced, ds, i - s.produced);
      }
    }
  }

  /** Every linked request is one of those accepted. */
  lemma LinkedAccepted(s: State, k: nat)
    requires ListInv(s) && k < |Linked(s)|
    ensures var id := if k < |s.stale| then s.stale[k] else |s.outcomes| + (k - |s.stale|);
            id < |s.accepted| && Linked(s)[k] == s.accepted[id]
  {
    if k >= |s.stale| {
      assert Linked(s)[|s.stale|..][k - |s.stale|] == s.accepted[|s.outcomes|..][k - |s.stale|];
    }
  }

  lemma HeadRequest(s: State)
    requires ListInv(s) && MapInv(s) && |s.work| > 0
    ensures WellFormed(s.work[0].req, s.conf.keyhole)
  {
    hide CbInv, LinkInv;
    assert Linked(s)[|s.pend|] == s.work[0].req;
    LinkedAccepted(s, |s.pend|);
  }

  /** What an issue pass does, in terms of the head's plan. */
  lemma IssuePass(s: State)
    requires ListInv(s) && MapInv(s) && IssueEnabled(s)
    ensures var cb, n := s.work[0], IssueCount(s);
            var plan := PlanOf(cb.req, s.conf.keyhole);
            && 0 < n && cb.descNr + n <= |plan|
            && IssueXfers(s) == plan[cb.descNr..cb.descNr + n]
            && IssueCb(s).offset == SumLen(plan[..cb.descNr + n]) <= cb.req.count
            && (IssueCb(s).offset == cb.req.count <==> cb.descNr + n == |plan|)
  {
    HeadRequest(s);
    hide LinkInv, MapInv, Linked;
    NeededIsTail(s.work[0], s.conf.keyhole);
    IssueAdvances(s.work[0], s.conf.keyhole, IssueCount(s));
  }

  lemma LogGrows(c: Conf, log: seq<Desc>, xs: seq<Xfer>)
    ensures Xfers(c, log + PassDescs(c, xs)) == Xfers(c, log) + xs
  {
  }

  /** An accepted request none of whose descriptors is issued. */
  lemma FreshHead(cb: Cb, k: nat)
    requires WellFormed(cb.req, k) && cb.offset == cb.descNr == 0
    ensures HeadInv(cb, k)
  {
    assert PlanOf(cb.req, k)[..0] == [];
  }

  lemma IssueLists(s: State)
    requires ListInv(s) && MapInv(s) && IssueEnabled(s)
    ensures ListInv(IssueStep(s)) && Linked(IssueStep(s)) == Linked(s)
  {
    hide WriteRing, PassDescs, IssueXfers, LinkInv, MapInv, HeadInv;
    IssuePass(s);
    IssueLinks(s);
    var s', cb := IssueStep(s), IssueCb(s);
    if cb.offset >= cb.req.count {
      if |s'.work| > 0 {
        assert s.work[1] == s.work[1..][0];
        WorkAccepted(s, 1);
        FreshHead(s.work[1], s.conf.keyhole);
      }
    } else {
      assert ([cb] + s.work[1..])[1..] == s.work[1..];
      StillHead(s);
    }
  }

  /** A pass that leaves the head partly issued leaves it where its charge ends. */
  lemma StillHead(s: State)
    requires ListInv(s) && MapInv(s) && IssueEnabled(s) && IssueCb(s).offset < s.work[0].req.count
    ensures HeadInv(IssueCb(s), s.conf.keyhole)
  {
    IssuePass(s);
  }

  lemma IssueLinks(s: State)
    requires IssueEnabled(s)
    ensures Linked(IssueStep(s)) == Linked(s)
  {
    var cb := IssueCb(s);
    hide WriteRing, PassDescs, IssueXfers, IssueCount;
    assert Requests(s.pend + [cb]) == Requests(s.pend) + [cb.req];
    assert Requests(s.work) == [cb.req] + Requests(s.work[1..]);
    assert Requests([cb] + s.work[1..]) == Requests(s.work);
  }

  /** How an issue pass changes the lists and the log. */
  lemma IssueShape(s: State)
    requires ListInv(s) && MapInv(s) && IssueEnabled(s)
    ensures var s', cb, n := IssueStep(s), s.work[0], IssueCount(s);
            var plan := PlanOf(cb.req, s.conf.keyhole);
            && 0 < n && cb.descNr + n <= |plan|
            && Xfers(s.conf, s'.log) == Xfers(s.conf, s.log) + plan[cb.descNr..cb.descNr + n]
            && (cb.descNr + n < |plan| ==> s'.pend == s.pend && PartialCharge(s') == cb.descNr + n)
            && (cb.descNr + n == |plan| ==> Charges(s'.pend) == Charges(s.pend) + [|plan|] && PartialCharge(s') == 0)
  {
    hide LinkInv, MapInv, Linked, Xfers, PlanOf, Needed, IssueXfers, PassDescs, WriteRing, HeadInv, IssueCount, SumLen;
    IssuePass(s);
    IssueLog(s);
    IssueCbIs(s);
    if |s.work| > 1 {
      NextUncharged(s);
    }
    assert Charges(s.pend + [IssueCb(s)]) == Charges(s.pend) + [IssueCb(s).descNr];
  }

  lemma IssueCbIs(s: State)
    requires IssueEnabled(s)
    ensures IssueCb(s).descNr == s.work[0].descNr + IssueCount(s) && IssueCb(s).req == s.work[0].req
  {
  }

  lemma NextUncharged(s: State)
    requires ListInv(s) && |s.work| > 1
    ensures s.work[1..][0].descNr == 0
  {
    hide LinkInv, HeadInv;
  }

  lemma IssueLog(s: State)
    requires IssueEnabled(s)
    ensures Xfers(s.conf, IssueStep(s).log) == Xfers(s.conf, s.log) + IssueXfers(s)
  {
    hide WriteRing, IssueXfers;
    LogGrows(s.conf, s.log, IssueXfers(s));
  }

  lemma HeadPlan(s: State)
    requires RosterInv(s) && |s.work| > 0
    ensures var open := Retired(s) + |s.pend|;
            && open < |Roster(s)|
            && Plans(Roster(s), s.conf.keyhole)[open] == PlanOf(s.work[0].req, s.conf.keyhole)
  {
    hide PlanOf;
    assert Linked(s)[|s.pend|] == s.work[0].req;
    assert Roster(s)[Retired(s)..][|s.pend|] == s.work[0].req;
  }

  lemma IssueRoster(s: State)
    requires RosterInv(s) && IssueEnabled(s)
    ensures RosterInv(IssueStep(s)) && Roster(IssueStep(s)) == Roster(s) && Retired(IssueStep(s)) == Retired(s)
  {
    hide IssueStep, Linked;
    IssueLinks(s);
    IssueFrame(s);
  }

  lemma IssueLedger(s: State)
    requires RingInv(s) && ListInv(s) && MapInv(s) && IssueEnabled(s)
    requires RosterInv(s) && LedgerInv(s)
    ensures RosterInv(IssueStep(s)) && LedgerInv(IssueStep(s))
  {
    hide Ledger.Balanced, Plans, Xfers, PlanOf, CbInv, LinkInv, Linked, WriteRing, MapInv, Charges, PassDescs,
         IssueXfers, IssueCb, RosterInv, Roster, Retired, IssueStep;
    RosterBounds(s);
    IssueFrame(s);
    IssueRoster(s);
    IssueShape(s);
    HeadPlan(s);
    var plans := Plans(Roster(s), s.conf.keyhole);
    var done, part, xs := Retired(s), PartialCharge(s), Xfers(s.conf, s.log);
    var n := IssueCount(s);
    hide IssueCount;
    if part + n < |plans[done + |s.pend|]| {
      Ledger.IssueSome(plans, done, Charges(s.pend), part, s.credit, s.consumed, xs, n);
    } else {
      assert plans[done + |s.pend|][part..part + n] == plans[done + |s.pend|][part..];
      Ledger.IssueAll(plans, done, Charges(s.pend), part, s.credit, s.consumed, xs);
    }
  }

  lemma IssueKeeps(s: State)
    requires Inv(s) && IssueEnabled(s)
    ensures Inv(IssueStep(s))
  {
    hide LedgerInv, ListInv, RingInv, OutcomeInv, CountInv, MapInv, FlagDown;
    IssueRing(s);
    IssueLists(s);
    IssueFrame(s);
    IssueFlags(s);
    hide IssueStep;
    if !s.dirty {
      IssueFlagDown(s);
      IssueLedger(s);
    }
  }

  lemma IssueFlagDown(s: State)
    requires RingInv(s) && ListInv(s) && MapInv(s) && IssueEnabled(s)
    ensures FlagDown(IssueStep(s))
  {
    IssuePass(s);
    hide ListInv, MapInv, IssueXfers, WriteRing, PassDescs, IssueCount, IssueCb;
  }

  lemma CanIssue(s: State)
    requires Inv(s) && s.online && !s.stopWait && |s.work| > 0 && s.avail > 0
    ensures IssueEnabled(s)
  {
    hide EpochInv, OutcomeInv, CountInv, CbInv, LinkInv;
    HeadRequest(s);
  }

  lemma IssueFrame(s: State)
    requires IssueEnabled(s)
    ensures var s' := IssueStep(s);
            && s' == s.(pidx := s'.pidx, avail := s'.avail, ring := s'.ring, work := s'.work, pend := s'.pend,
                        log := s'.log, workReqPend := s'.workReqPend, produced := s'.produced)
            && (CountInv(s) ==> CountInv(s'))
  {
    hide IssueXfers, WriteRing, PassDescs, IssueCount, CountInv, IssueCb;
    if CountInv(s) {
      IssueCounts(s);
    }
  }

  lemma IssueCounts(s: State)
    requires IssueEnabled(s) && CountInv(s)
    ensures CountInv(IssueStep(s))
  {
    hide IssueXfers, WriteRing, PassDescs, IssueCount, IssueCb;
  }

  lemma IssueFlags(s: State)
    requires IssueEnabled(s)
    ensures OutcomeInv(s) ==> OutcomeInv(IssueStep(s))
    ensures MapInv(s) ==> MapInv(IssueStep(s))
    ensures CountInv(s) ==> CountInv(IssueStep(s))
    ensures DrainSound(s) ==> DrainSound(IssueStep(s))
  {
    hide IssueStep, BookInv, CountInv, WellFormed, Addressed;
    IssueFrame(s);
  }

  // ------------------------------------------------------------ submission

  /** `s` after it has accepted `rs`. */
  ghost predicate Accepts(s: State, rs: seq<Request>, failed: seq<bool>, s': State) {
    s' == s.(work := s.work + Fresh(rs), accepted := s.accepted + rs,
             workReqPend := s'.workReqPend, uncounted := s'.uncounted, mapFailed := s.mapFailed + failed)
  }

  lemma AcceptLists(s: State, rs: seq<Request>, failed: seq<bool>, s': State)
    requires ListInv(s) && AllWellFormed(rs, s.conf.keyhole) && Accepts(s, rs, failed, s')
    ensures ListInv(s')
  {
    hide HeadInv, WellFormed;
    assert Requests(s.work + Fresh(rs)) == Requests(s.work) + rs;
    assert Linked(s') == Linked(s) + rs;
    assert s'.accepted[|s.outcomes|..] == s.accepted[|s.outcomes|..] + rs;
    assert (Linked(s) + rs)[|s.stale|..] == Linked(s)[|s.stale|..] + rs;
    if |s.work| > 0 {
      assert s'.work[1..] == s.work[1..] + Fresh(rs);
    } else if |rs| > 0 {
      assert WellFormed(rs[0], s.conf.keyhole);
      FreshHead(s'.work[0], s.conf.keyhole);
    }
  }

  lemma PlansConcat(rs: seq<Request>, more: seq<Request>, k: nat)
    ensures Plans(rs + more, k) == Plans(rs, k) + Plans(more, k)
  {
  }

  lemma AcceptRoster(s: State, rs: seq<Request>, failed: seq<bool>, s': State)
    requires RosterInv(s) && Accepts(s, rs, failed, s')
    ensures RosterInv(s') && Roster(s') == Roster(s) + rs && Retired(s') == Retired(s)
    ensures Charges(s'.pend) == Charges(s.pend) && PartialCharge(s') == PartialCharge(s)
  {
    assert s'.accepted[s.epoch..] == s.accepted[s.epoch..] + rs;
    assert Requests(s.work + Fresh(rs)) == Requests(s.work) + rs;
    assert Linked(s') == Linked(s) + rs;
    assert (Roster(s) + rs)[Retired(s)..] == Roster(s)[Retired(s)..] + rs;
  }

  lemma AcceptLedger(s: State, rs: seq<Request>, failed: seq<bool>, s': State)
    requires RosterInv(s) && LedgerInv(s) && Accepts(s, rs, failed, s')
    ensures RosterInv(s') && LedgerInv(s') && (FlagDown(s) ==> FlagDown(s'))
  {
    hide Ledger.Balanced, Plans, Xfers, Charges, RosterInv, Roster, Retired;
    RosterBounds(s);
    AcceptRoster(s, rs, failed, s');
    var k := s.conf.keyhole;
    PlansConcat(Roster(s), rs, k);
    Ledger.AcceptKeeps(Plans(Roster(s), k), Retired(s), Charges(s.pend), PartialCharge(s), s.credit, s.consumed,
      Xfers(s.conf, s.log), Plans(rs, k));
  }

  lemma AcceptBooks(s: State, rs: seq<Request>, failed: seq<bool>, s': State)
    requires MapInv(s) && OutcomeInv(s) && s.online
    requires BatchOk(rs, failed, s.conf.keyhole) && Accepts(s, rs, failed, s')
    ensures MapInv(s') && OutcomeInv(s')
  {
    hide WellFormed, Addressed;
  }

  lemma AcceptKeeps(s: State, rs: seq<Request>, failed: seq<bool>, s': State)
    requires Inv(s) && s.online && BatchOk(rs, failed, s.conf.keyhole)
    requires Accepts(s, rs, failed, s') && CountInv(s')
    ensures Inv(s')
  {
    hide LedgerInv, ListInv, OutcomeInv, MapInv, AllWellFormed, FlagDown;
    AcceptLists(s, rs, failed, s');
    AcceptBooks(s, rs, failed, s');
    if !s.dirty {
      AcceptLedger(s, rs, failed, s');
    }
  }

  lemma ListBounds(s: State)
    requires ListInv(s)
    ensures s.epoch <= |s.outcomes| <= |s.accepted|
  {
  }

  // ------------------------------------------------------------ stop

  /** What stays linked was linked, and has nobody to call back. */
  lemma {:induction false} BlockingFrom(cbs: seq<Cb>)
    ensures forall i :: 0 <= i < |Blocking(cbs)| ==> Blocking(cbs)[i] in cbs && !Blocking(cbs)[i].req.callback
  {
    if |cbs| > 0 {
      BlockingFrom(cbs[..|cbs| - 1]);
    }
  }

  lemma {:induction false} BlockingConcat(a: seq<Cb>, b: seq<Cb>)
    ensures Blocking(a + b) == Blocking(a) + Blocking(b)
  {
    if |b| == 0 {
      assert a + b == a;
    } else {
      assert (a + b)[..|a + b| - 1] == a + b[..|b| - 1];
      BlockingConcat(a, b[..|b| - 1]);
    }
  }

  /** The ids kept are those of the requests kept, in order. */
  lemma {:induction false} KeptMatch(cbs: seq<Cb>, ids: seq<nat>, accepted: seq<Request>)
    requires |ids| == |cbs|
    requires forall i :: 0 <= i < |ids| ==> ids[i] < |accepted| && accepted[ids[i]] == cbs[i].req
    requires forall i, j :: 0 <= i < j < |ids| ==> ids[i] < ids[j]
    ensures |KeptIds(cbs, ids)| == |Blocking(cbs)|
    ensures forall k :: 0 <= k < |KeptIds(cbs, ids)| ==> Kept(cbs, ids, accepted, k)
    ensures forall j, k :: 0 <= j < k < |KeptIds(cbs, ids)| ==> KeptIds(cbs, ids)[j] < KeptIds(cbs, ids)[k]
  {
    hide KeptIds, Blocking;
    KeptUnfold(cbs, ids);
    if |cbs| > 0 {
      var n := |cbs| - 1;
      KeptMatch(cbs[..n], ids[..n], accepted);
      var rest := KeptIds(cbs[..n], ids[..n]);
      forall k | 0 <= k < |rest|
        ensures rest[k] < ids[n] && Kept(cbs, ids, accepted, k)
      {
        assert Kept(cbs[..n], ids[..n], accepted, k);
      }
    }
  }

  lemma KeptUnfold(cbs: seq<Cb>, ids: seq<nat>)
    requires |ids| == |cbs|
    ensures |cbs| == 0 ==> KeptIds(cbs, ids) == [] && Blocking(cbs) == []
    ensures |cbs| > 0 ==>
              var n := |cbs| - 1;
              && KeptIds(cbs, ids) == KeptIds(cbs[..n], ids[..n]) + (if cbs[n].req.callback then [] else [ids[n]])
              && Blocking(cbs) == Blocking(cbs[..n]) + (if cbs[n].req.callback then [] else [cbs[n]])
  {
  }

  ghost predicate Kept(cbs: seq<Cb>, ids: seq<nat>, accepted: seq<Request>, k: nat) {
    && k < |KeptIds(cbs, ids)| == |Blocking(cbs)|
    && var id := KeptIds(cbs, ids)[k];
       && (exists i :: 0 <= i < |ids| && ids[i] == id)
       && id < |accepted| && accepted[id] == Blocking(cbs)[k].req && !accepted[id].callback
  }

  lemma LinkedIdsMatch(s: State)
    requires ListInv(s) && OutcomeInv(s)
    ensures |LinkedIds(s)| == |s.pend + s.work|
    ensures forall i :: 0 <= i < |LinkedIds(s)| ==>
              LinkedIds(s)[i] < |s.accepted| && s.accepted[LinkedIds(s)[i]] == (s.pend + s.work)[i].req
    ensures forall i, j :: 0 <= i < j < |LinkedIds(s)| ==> LinkedIds(s)[i] < LinkedIds(s)[j]
  {
    hide CbInv;
    var ids := LinkedIds(s);
    assert |Linked(s)[|s.stale|..]| == |s.accepted[|s.outcomes|..]|;
    forall i | 0 <= i < |ids|
      ensures ids[i] < |s.accepted| && s.accepted[ids[i]] == (s.pend + s.work)[i].req
    {
      LinkedAccepted(s, i);
      assert Linked(s)[i] == (s.pend + s.work)[i].req;
    }
    forall i, j | 0 <= i < j < |ids|
      ensures ids[i] < ids[j]
    {
      if j < |s.stale| {
      } else if i < |s.stale| {
        assert Haunting(BookOf(s), s.accepted, s.stale[i]);
      }
    }
  }

  /** A stop tells everybody linked that it was refused. */
  lemma FlushBook(s: State)
    requires ListInv(s) && OutcomeInv(s)
    ensures var b := Tell(BookOf(s), Flushed(|s.pend| + |s.work|));
            && BookInv(b, s.accepted) && |b.outcomes| == |s.accepted|
            && b.outcomes == s.outcomes + Flushed(|s.accepted| - |s.outcomes|)
            && (forall i :: 0 <= i < |LinkedIds(s)| ==> b.outcomes[LinkedIds(s)[i]] == Refused())
  {
    hide CbInv, LinkedIds, BookInv, Tell, LinkInv, Linked;
    LinkSizes(s);
    var n := |s.pend| + |s.work|;
    var os, book := Flushed(n), BookOf(s);
    LinkedIdsMatch(s);
    TellKeeps(book, s.accepted, Linked(s), os);
    TellIs(book, os);
    var b := Tell(book, os);
    StaleRefused(s);
    assert os[|s.stale|..] == Flushed(|s.accepted| - |s.outcomes|);
    forall i | 0 <= i < |LinkedIds(s)|
      ensures b.outcomes[LinkedIds(s)[i]] == Refused()
    {
      LinkedIdsAt(s, i);
    }
  }

  lemma LinkSizes(s: State)
    requires ListInv(s)
    ensures |Linked(s)| == |s.pend| + |s.work| == |s.stale| + (|s.accepted| - |s.outcomes|)
    ensures |s.outcomes| <= |s.accepted|
  {
    assert |Linked(s)[|s.stale|..]| == |s.accepted[|s.outcomes|..]|;
  }

  lemma StaleRefused(s: State)
    requires OutcomeInv(s)
    ensures forall k :: 0 <= k < |s.stale| ==> s.stale[k] < |s.outcomes| && s.outcomes[s.stale[k]] == Refused()
  {
    forall k | 0 <= k < |s.stale|
      ensures s.stale[k] < |s.outcomes| && s.outcomes[s.stale[k]] == Refused()
    {
      assert Haunting(BookOf(s), s.accepted, s.stale[k]);
    }
  }

  lemma LinkedIdsAt(s: State, i: nat)
    requires i < |LinkedIds(s)|
    ensures LinkedIds(s)[i] == if i < |s.stale| then s.stale[i] else |s.outcomes| + (i - |s.stale|)
  {
  }

  lemma StopBook(s: State)
    requires ListInv(s) && OutcomeInv(s)
    ensures OutcomeInv(StopEndStep(s))
    ensures StopEndStep(s).outcomes == s.outcomes + Flushed(|s.accepted| - |s.outcomes|)
  {
    hide CbInv, LinkInv, ListInv, Linked, LinkedIds, Tell, BookInv;
    var s', b := StopEndStep(s), Tell(BookOf(s), Flushed(|s.pend| + |s.work|));
    LinkedIdsMatch(s);
    FlushBook(s);
    KeptMatch(s.pend + s.work, LinkedIds(s), s.accepted);
    forall k | 0 <= k < |s'.stale|
      ensures s'.stale[k] < |s.accepted| && !s.accepted[s'.stale[k]].callback && b.outcomes[s'.stale[k]] == Refused()
    {
      assert Kept(s.pend + s.work, LinkedIds(s), s.accepted, k);
    }
    BookWith(b, s.accepted, s'.stale);
    assert BookOf(s') == b.(stale := s'.stale);
  }

  lemma BookWith(b: Book, accepted: seq<Request>, stale: seq<nat>)
    requires BookInv(b, accepted) && |b.outcomes| == |accepted|
    requires forall k :: 0 <= k < |stale| ==>
               stale[k] < |accepted| && !accepted[stale[k]].callback && b.outcomes[stale[k]] == Refused()
    requires forall j, k :: 0 <= j < k < |stale| ==> stale[j] < stale[k]
    ensures BookInv(b.(stale := stale), accepted)
  {
    forall a | a in b.again
      ensures Haunting(b.(stale := stale), accepted, a.id) && Tellable(a.outcome, accepted[a.id])
    {
      assert Haunting(b, accepted, a.id);
    }
  }

  lemma StopLinks(s: State)
    ensures Linked(StopEndStep(s)) == Requests(Blocking(s.pend + s.work))
  {
    hide Blocking, Tell, KeptIds, LinkedIds;
    BlockingConcat(s.pend, s.work);
  }

  lemma StopLists(s: State)
    requires ListInv(s) && OutcomeInv(s) && MapInv(s)
    ensures ListInv(StopEndStep(s))
  {
    hide CbInv, BookInv, Tell, LinkedIds, LinkInv, MapInv, Linked, Blocking, KeptIds;
    var s' := StopEndStep(s);
    var l := s.pend + s.work;
    LinkedIdsMatch(s);
    KeptMatch(l, LinkedIds(s), s.accepted);
    FlushBook(s);
    StopLinks(s);
    forall k | 0 <= k < |s'.stale|
      ensures s'.stale[k] < |s.accepted| && s.accepted[s'.stale[k]] == Blocking(l)[k].req
    {
      assert Kept(l, LinkedIds(s), s.accepted, k);
    }
    KeptLink(s', Blocking(l));
    StopCbs(s);
  }

  lemma KeptLink(s: State, kept: seq<Cb>)
    requires Linked(s) == Requests(kept) && |s.outcomes| == |s.accepted| && |s.stale| == |kept|
    requires forall k :: 0 <= k < |kept| ==> s.stale[k] < |s.accepted| && s.accepted[s.stale[k]] == kept[k].req
    ensures LinkInv(BookOf(s), s.accepted, Linked(s))
  {
  }

  lemma BlockingOne(cb: Cb)
    ensures Blocking([cb]) == if cb.req.callback then [] else [cb]
  {
    assert [cb][..0] == [];
  }

  lemma BlockingHead(cbs: seq<Cb>)
    requires |cbs| > 0
    ensures Blocking(cbs) == (if cbs[0].req.callback then [] else [cbs[0]]) + Blocking(cbs[1..])
  {
    hide Blocking;
    BlockingConcat([cbs[0]], cbs[1..]);
    assert cbs == [cbs[0]] + cbs[1..];
    BlockingOne(cbs[0]);
  }

  lemma StopCbs(s: State)
    requires ListInv(s) && MapInv(s)
    ensures CbInv(Blocking(s.pend), Blocking(s.work), s.conf.keyhole)
  {
    hide LinkInv, HeadInv, Blocking, MapInv, Linked;
    BlockingFrom(s.pend);
    if |s.work| > 0 {
      var rest := s.work[1..];
      BlockingFrom(rest);
      BlockingHead(s.work);
      if s.work[0].req.callback && |Blocking(rest)| > 0 {
        var i :| 0 <= i < |rest| && rest[i] == Blocking(rest)[0];
        WorkAccepted(s, i + 1);
        FreshHead(rest[i], s.conf.keyhole);
      }
    } else {
      BlockingFrom(s.work);
    }
  }

  lemma WorkAccepted(s: State, i: nat)
    requires ListInv(s) && MapInv(s) && i < |s.work|
    ensures WellFormed(s.work[i].req, s.conf.keyhole)
  {
    hide CbInv, LinkInv;
    assert Linked(s)[|s.pend| + i] == s.work[i].req;
    LinkedAccepted(s, |s.pend| + i);
  }

  /** The ledger says where each request done so far lies in the log. */
  lemma LedgerDone(s: State)
    requires RingInv(s) && RosterInv(s) && LedgerInv(s)
    ensures DoneInv(s)
  {
    hide Ledger.Balanced, Ledger.Join, Plans, Xfers, PlanOf;
    forall i | s.epoch <= i < |s.outcomes| && s.outcomes[i].status == 0
      ensures DoneAt(s, i)
    {
      RosterDone(s, |s.carried| + (i - s.epoch));
      RosterAt(s, i);
    }
  }

  /** The roster up to request `i`. */
  lemma RosterAt(s: State, i: nat)
    requires s.epoch <= i < |s.accepted|
    ensures var q := |s.carried| + (i - s.epoch);
            && q < |Roster(s)| && Roster(s)[q] == s.accepted[i]
            && Roster(s)[..q] == s.carried + s.accepted[s.epoch..i]
            && Roster(s)[..q + 1] == s.carried + s.accepted[s.epoch..i + 1]
  {
  }

  /** Each retired request of the roster has all its descriptors returned; they are one
      stretch of the log and its transfers. */
  lemma RosterDone(s: State, q: nat)
    requires RingInv(s) && RosterInv(s) && LedgerInv(s) && q < Retired(s)
    ensures var at, plan := |Ledger.Join(Plans(Roster(s)[..q], s.conf.keyhole))|, PlanOf(Roster(s)[q], s.conf.keyhole);
            && at + |plan| == |Ledger.Join(Plans(Roster(s)[..q + 1], s.conf.keyhole))| <= s.consumed <= |s.log|
            && Xfers(s.conf, s.log)[at..at + |plan|] == plan
  {
    hide Ledger.Balanced, Ledger.Join, Plans, Xfers, PlanOf;
    SettledSegment(Roster(s), s.conf.keyhole, Retired(s), Charges(s.pend), PartialCharge(s),
      s.credit, s.consumed, Xfers(s.conf, s.log), q);
  }

  lemma OutcomeBound(s: State)
    requires OutcomeInv(s)
    ensures |s.outcomes| <= |s.accepted|
  {
  }

  lemma PlansPrefix(rs: seq<Request>, m: nat, k: nat)
    requires m <= |rs|
    ensures Plans(rs, k)[..m] == Plans(rs[..m], k)
  {
  }

  lemma PlanAt(rs: seq<Request>, j: nat, k: nat)
    requires j < |rs|
    ensures Plans(rs, k)[j] == PlanOf(rs[j], k)
  {
  }

  /** Where the transfers of the `j`-th request of a list lie. */
  lemma SettledSegment(rs: seq<Request>, k: nat, done: nat, owed: seq<nat>, part: nat,
                       credit: nat, consumed: nat, log: seq<Xfer>, j: nat)
    requires Ledger.Balanced(Plans(rs, k), done, owed, part, credit, consumed, log)
    requires j < done <= |rs|
    ensures var at, plan := |Ledger.Join(Plans(rs[..j], k))|, PlanOf(rs[j], k);
            && at + |plan| == |Ledger.Join(Plans(rs[..j + 1], k))| <= consumed
            && at + |plan| <= |log| && log[at..at + |plan|] == plan
  {
    PlansPrefix(rs, j, k);
    PlansPrefix(rs, j + 1, k);
    PlanAt(rs, j, k);
    var plans := Plans(rs, k);
    Ledger.DoneSegment(plans, done, owed, part, credit, consumed, log, j);
    Ledger.IssuedSegment(plans, done, owed, part, credit, consumed, log, j);
  }

  /** Refusals do not touch what was done. */
  lemma StopDone(s: State)
    requires DoneInv(s) && ListInv(s) && OutcomeInv(s)
    ensures DoneInv(StopEndStep(s))
  {
    hide Ledger.Join, Plans, Xfers, PlanOf, Tell, ListInv, LinkedIds, BookInv;
    StopBook(s);
    var s' := StopEndStep(s);
    forall i | s'.epoch <= i < |s'.outcomes| && s'.outcomes[i].status == 0
      ensures DoneAt(s', i)
    {
      assert i < |s.outcomes|;
      assert DoneAt(s, i);
    }
  }

  lemma StopKeeps(s: State)
    requires Inv(s) && s.online
    ensures Inv(StopEndStep(s))
  {
    hide OutcomeInv, ListInv, MapInv, LedgerInv, DoneInv, FlagDown, Tell, RingInv, LinkedIds;
    StopBook(s);
    StopLists(s);
    ListBounds(s);
    ListBounds(StopEndStep(s));
    StopRest(s);
    if !s.dirty {
      LedgerDone(s);
      StopDone(s);
    }
  }

  lemma StopRest(s: State)
    ensures CountInv(s) ==> CountInv(StopEndStep(s))
    ensures MapInv(s) ==> MapInv(StopEndStep(s))
    ensures RingInv(s) ==> RingInv(StopEndStep(s))
  {
    hide Tell, LinkedIds, Blocking;
  }

  // ------------------------------------------------------------ start, hardware, doorbell

  lemma StartLedger(s: State)
    requires s.epoch == |s.outcomes| == |s.accepted| && s.carried == Linked(s) && |s.stale| == |s.carried|
    requires s.pend == [] && PartialCharge(s) == 0 && s.log == [] && s.consumed == s.credit == 0
    ensures RosterInv(s) && LedgerInv(s)
  {
    assert s.accepted[s.epoch..] == [];
    assert Roster(s)[0..] == Linked(s);
  }

  lemma StartKeeps(s: State)
    requires Inv(s) && !s.online
    ensures Inv(StartStep(s))
  {
    hide WellFormed, CbInv, ClearedRing, LedgerInv, RosterInv, BookInv, DoneInv;
    var s' := StartStep(s);
    LinkSizes(s);
    if !s'.dirty {
      StartLedger(s');
    }
  }

  lemma HardwareRing(s: State, n: nat)
    requires s.conf.rngsz > 0 && s.hardware + n <= s.published
    ensures RingInv(s) ==> RingInv(HardwareStep(s, n))
    ensures NeverStarted(s) ==> NeverStarted(HardwareStep(s, n))
  {
  }

  lemma HardwareKeeps(s: State, n: nat)
    requires Inv(s) && s.hardware + n <= s.published
    ensures Inv(HardwareStep(s, n))
  {
    hide CbInv, BookInv, LinkInv, LedgerInv, RosterInv, MapInv, DoneInv, RingInv, NeverStarted;
    HardwareRing(s, n);
    HardwareBooks(s, n);
    if !s.online && !s.dirty {
      DoneSame(s, HardwareStep(s, n));
    }
  }

  lemma HardwareBooks(s: State, n: nat)
    requires s.conf.rngsz > 0
    ensures MapInv(s) ==> MapInv(HardwareStep(s, n))
    ensures RosterInv(s) ==> RosterInv(HardwareStep(s, n))
    ensures RosterInv(s) && LedgerInv(s) ==> LedgerInv(HardwareStep(s, n))
  {
    hide WellFormed, Addressed, Ledger.Balanced;
  }

  lemma DoneSame(s: State, s': State)
    requires DoneInv(s) && s' == s.(hardware := s'.hardware, writeback := s'.writeback)
    ensures DoneInv(s')
  {
    forall i | s'.epoch <= i < |s'.outcomes| && s'.outcomes[i].status == 0
      ensures DoneAt(s', i)
    {
      assert DoneAt(s, i);
    }
  }

  lemma PublishKeeps(s: State)
    requires Inv(s) && s.online && s.published < s.produced
    ensures Inv(PublishStep(s))
  {
    hide CbInv, BookInv, Ledger.Balanced, Plans, Xfers, WellFormed, LinkInv;
  }

  /** Every step, whatever the hardware does, keeps the invariant. */
  lemma StepKeeps(s: State, e: Event)
    requires Inv(s) && Enabled(s, e)
    ensures Inv(Step(s, e))
  {
    hide EpochInv, ListInv, RingInv, OutcomeInv, MapInv, WriteRing, IssueStep, CompleteStep, HardwareStep, PublishStep,
         StartStep, StopEndStep;
    match e
    case Submit(r) =>
      if s.online { AcceptKeeps(s, [r], [false], SubmitStep(s, r)); }
    case Batch(rs, failed) =>
      if s.online { AcceptKeeps(s, rs, failed, BatchStep(s, rs, failed)); }
    case Hardware(n) => HardwareKeeps(s, n);
    case Complete => CompleteKeeps(s);
    case Issue => IssueKeeps(s);
    case Publish => PublishKeeps(s);
    case StopBegin => StopBeginKeeps(s);
    case StopEnd(_) => StopKeeps(s);
    case Start => StartKeeps(s);
  }

  lemma StopBeginKeeps(s: State)
    requires Inv(s) && s.online
    ensures Inv(s.(stopWait := true))
  {
    hide CbInv, BookInv, Ledger.Balanced, Plans, Xfers, WellFormed, LinkInv;
  }
}
