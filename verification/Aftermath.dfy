// What a stop leaves behind: blocking requests that stay linked, interrupts that come
// late, and a start on top of both.
module Aftermath {
  import opened Scatter
  import opened Plan
  import opened Ring
  import opened QueueSpec
  import opened QueueInv
  import opened QueueRuns
  import Ledger

  // ------------------------------------------------------------ who stays linked

  lemma {:induction false} KeptConcat(a: seq<Cb>, b: seq<Cb>, ids: seq<nat>, more: seq<nat>)
    requires |ids| == |a| && |more| == |b|
    ensures KeptIds(a + b, ids + more) == KeptIds(a, ids) + KeptIds(b, more)
  {
    hide KeptIds, Blocking;
    KeptUnfold(b, more);
    if |b| == 0 {
      assert a + b == a && ids + more == ids;
    } else {
      var n := |b| - 1;
      KeptUnfold(a + b, ids + more);
      assert (a + b)[..|a| + n] == a + b[..n] && (ids + more)[..|a| + n] == ids + more[..n];
      KeptConcat(a, b[..n], ids, more[..n]);
    }
  }

  /** An id is kept exactly when its request is blocking. */
  lemma {:induction false} KeptIff(cbs: seq<Cb>, ids: seq<nat>, id: nat)
    requires |ids| == |cbs|
    ensures id in KeptIds(cbs, ids) <==> exists p :: 0 <= p < |ids| && ids[p] == id && !cbs[p].req.callback
  {
    if |cbs| > 0 {
      var n := |cbs| - 1;
      KeptIff(cbs[..n], ids[..n], id);
      if p :| 0 <= p < |ids| && ids[p] == id && !cbs[p].req.callback {
        if p < n {
          assert ids[..n][p] == id;
        }
      }
    }
  }

  /** Where request `i`, not told anything yet, stands among the linked ones. */
  function Place(s: State, i: nat): nat
    requires |s.outcomes| <= i
  {
    |s.stale| + (i - |s.outcomes|)
  }

  lemma PlaceIs(s: State, i: nat)
    requires ListInv(s) && OutcomeInv(s) && |s.outcomes| <= i < |s.accepted|
    ensures Place(s, i) < |LinkedIds(s)| == |s.pend + s.work| && LinkedIds(s)[Place(s, i)] == i
    ensures forall p :: 0 <= p < |LinkedIds(s)| && LinkedIds(s)[p] == i ==> p == Place(s, i)
    ensures Place(s, i) < |s.pend| ==> s.pend[Place(s, i)].req == s.accepted[i]
  {
    hide CbInv, LinkInv, BookInv;
    LinkSizes(s);
    LinkedIdsMatch(s);
    LinkedIdsAt(s, Place(s, i));
  }

  /** Where a pending blocking request ends up: behind the blocking ones before it. */
  lemma StopPlace(s: State, p: nat)
    requires ListInv(s) && OutcomeInv(s) && p < |s.pend| && !s.pend[p].req.callback
    ensures var t, k := StopEndStep(s), |Blocking(s.pend[..p])|;
            && k < |t.pend| <= |t.stale| && t.pend[..k + 1] == Blocking(s.pend[..p + 1])
            && p < |LinkedIds(s)| && t.stale[k] == LinkedIds(s)[p]
  {
    hide KeptIds, Tell, Blocking, ListInv, OutcomeInv, LinkedIds;
    LinkedIdsMatch(s);
    StopIs(s);
    hide StopEndStep;
    var a, b, ids := s.pend[..p + 1], s.pend[p + 1..] + s.work, LinkedIds(s);
    assert a[..p] == s.pend[..p] && a[p] == s.pend[p];
    assert s.pend == a + s.pend[p + 1..] && s.pend + s.work == a + b && ids == ids[..p + 1] + ids[p + 1..];
    assert ids[..p + 1][..p] == ids[..p];
    BlockingConcat(a, s.pend[p + 1..]);
    KeptConcat(a, b, ids[..p + 1], ids[p + 1..]);
    KeptUnfold(a, ids[..p + 1]);
    StopCounts(s);
  }

  lemma StopCounts(s: State)
    requires ListInv(s) && OutcomeInv(s)
    ensures var t := StopEndStep(s); |t.stale| == |t.pend| + |t.work|
  {
    hide Tell, Blocking, KeptIds, LinkedIds, CbInv, LinkInv, BookInv;
    LinkedIdsMatch(s);
    StopIs(s);
    BlockingConcat(s.pend, s.work);
  }

  /** After a stop, the requests pending and still linked are the blocking ones among
      those that were pending. */
  lemma StopStale(s: State, i: nat)
    requires Inv(s) && |s.outcomes| <= i < |s.accepted|
    ensures var t := StopEndStep(s);
            && |t.pend| <= |t.stale|
            && (i in t.stale[..|t.pend|] <==> Place(s, i) < |s.pend| && !s.accepted[i].callback)
  {
    hide EpochInv, MapInv, RingInv, CountInv, KeptIds, Tell, Blocking, ListInv, OutcomeInv, LinkedIds;
    var t, n, ids := StopEndStep(s), |s.pend|, LinkedIds(s);
    LinkedIdsMatch(s);
    StopCounts(s);
    PlaceIs(s, i);
    StopIs(s);
    hide StopEndStep;
    assert ids == ids[..n] + ids[n..];
    KeptConcat(s.pend, s.work, ids[..n], ids[n..]);
    assert t.stale[..|t.pend|] == KeptIds(s.pend, ids[..n]);
    KeptIff(s.pend, ids[..n], i);
    if Place(s, i) < n {
      assert ids[..n][Place(s, i)] == i;
    }
  }

  /** A stop repeats itself only to requests told before. */
  lemma StopAgain(s: State)
    requires Inv(s)
    ensures forall a :: a in StopEndStep(s).again ==> a.id < |s.outcomes|
  {
    hide EpochInv, MapInv, RingInv, CountInv, KeptIds, Tell, Blocking, ListInv, LinkedIds;
    var os := Flushed(|s.pend| + |s.work|);
    TellIs(BookOf(s), os);
    StaleRefused(s);
    var k := Min(|os|, |s.stale|);
    forall a | a in StopEndStep(s).again
      ensures a.id < |s.outcomes|
    {
      if a in s.again {
        assert Haunting(BookOf(s), s.accepted, a.id);
      } else {
        var j :| 0 <= j < k && a == Agains(s.stale[..k], os[..k])[j];
        assert a.id == s.stale[j];
      }
    }
  }

  // ------------------------------------------------------------ late completions

  /** Events up to the next start. */
  ghost predicate NoStart(es: seq<Event>) {
    forall i :: 0 <= i < |es| ==> !es[i].Start?
  }

  /** What may have changed on a stopped queue: pending requests were paid for with the
      descriptors returned, told again and unlinked, oldest first. */
  ghost predicate Later(t: State, u: State) {
    && !u.online && u.conf == t.conf && u.work == t.work && u.outcomes == t.outcomes && u.accepted == t.accepted
    && u.epoch == t.epoch && u.carried == t.carried && u.dirty == t.dirty && u.log == t.log && u.ring == t.ring
    && |u.pend| <= |t.pend| <= |t.stale| && u.stale == t.stale[|t.pend| - |u.pend|..]
    && t.again <= u.again && (t.conf.polling ==> u.again == t.again)
    && (forall a :: a in u.again ==> a in t.again || a.id in t.stale[..|t.pend| - |u.pend|])
    && t.consumed <= u.consumed && t.hardware <= u.hardware && u.credit <= t.credit + (u.consumed - t.consumed)
    && Ledger.PaidDown(Charges(t.pend), Charges(u.pend), t.credit + (u.consumed - t.consumed) - u.credit)
  }

  lemma LateComplete(t: State, u: State)
    requires Inv(u) && Later(t, u) && !t.conf.polling
    ensures Later(t, CompleteStep(u))
  {
    hide EpochInv, OutcomeInv, MapInv, CountInv, Retire, DoneOutcomes, Later, CompleteStep, Tell, ListInv, RingInv;
    LaterOffline(t, u);
    if u.ring == [] {
      CompleteNothing(u);
    } else {
      CompleteRing(u);
      if u.hardware != u.consumed {
        CompleteFrame(u);
        CompleteParts(u);
        RingOrder(u);
        PositiveCharges(u);
        var n := Retire(u.pend, u.credit + (u.hardware - u.consumed)).0;
        LateBook(t, u, CompleteStep(u), DoneOutcomes(u.pend[..n]));
      }
    }
  }

  lemma LaterOffline(t: State, u: State)
    requires Later(t, u)
    ensures !u.online
  {
  }

  lemma LateBook(t: State, u: State, v: State, os: seq<Outcome>)
    requires Later(t, u) && !t.conf.polling && |os| + |v.pend| == |u.pend|
    requires v == u.(cidx := v.cidx, avail := v.avail, credit := v.credit, pend := v.pend, drained := v.drained,
                     doorbell := v.doorbell, consumed := v.consumed, outcomes := v.outcomes, stale := v.stale,
                     again := v.again)
    requires BookOf(v) == Tell(BookOf(u), os)
    requires v.consumed == u.hardware > u.consumed
    requires forall i :: 0 <= i < |u.pend| ==> Charges(u.pend)[i] > 0
    requires Ledger.Pay(Charges(u.pend), u.credit + (u.hardware - u.consumed)) == (|os|, Charges(v.pend), v.credit)
    ensures Later(t, v)
  {
    hide Tell, Ledger.PaidDown, Charges;
    TellIs(BookOf(u), os);
    var n, m := |os|, |t.pend| - |u.pend|;
    assert u.stale[..n] == t.stale[m..m + n] && os[n..] == [];
    LatePaid(t, u, v);
    forall a | a in v.again
      ensures a in t.again || a.id in t.stale[..m + n]
    {
      if a !in u.again {
        var j :| 0 <= j < n && a == Agains(u.stale[..n], os[..n])[j];
        assert a.id == t.stale[..m + n][m + j];
      } else if a !in t.again {
        assert a.id in t.stale[..m];
        assert t.stale[..m] <= t.stale[..m + n];
      }
    }
  }

  lemma LatePaid(t: State, u: State, v: State)
    requires t.consumed <= u.consumed < v.consumed && u.credit <= t.credit + (u.consumed - t.consumed)
    requires Ledger.PaidDown(Charges(t.pend), Charges(u.pend), t.credit + (u.consumed - t.consumed) - u.credit)
    requires forall i :: 0 <= i < |u.pend| ==> Charges(u.pend)[i] > 0
    requires var (n, rest, c) := Ledger.Pay(Charges(u.pend), u.credit + (v.consumed - u.consumed));
             rest == Charges(v.pend) && c == v.credit
    ensures v.credit <= t.credit + (v.consumed - t.consumed)
    ensures Ledger.PaidDown(Charges(t.pend), Charges(v.pend), t.credit + (v.consumed - t.consumed) - v.credit)
  {
    hide Ledger.PaidDown, Ledger.Pay, Charges;
    Ledger.PayMore(Charges(t.pend), Charges(u.pend), t.credit + (u.consumed - t.consumed) - u.credit,
      u.credit + (v.consumed - u.consumed));
  }

  lemma {:induction false} LateRun(t: State, u: State, es: seq<Event>)
    requires Inv(u) && Later(t, u) && Possible(u, es) && NoStart(es)
    ensures Later(t, Run(u, es)) && Inv(Run(u, es))
    decreases |es|
  {
    hide EpochInv, OutcomeInv, MapInv, CountInv, ListInv, RingInv, CompleteStep, Later;
    if |es| > 0 {
      var e := es[0];
      LateStep(t, u, e);
      StepKeeps(u, e);
      LateRun(t, Step(u, e), es[1..]);
    }
  }

  lemma LateStep(t: State, u: State, e: Event)
    requires Inv(u) && Later(t, u) && Enabled(u, e) && !e.Start?
    ensures Later(t, Step(u, e))
  {
    hide EpochInv, OutcomeInv, MapInv, CountInv, ListInv, RingInv, CompleteStep, Charges, Ledger.PaidDown;
    if e.Complete? {
      LateComplete(t, u);
    }
  }

  /** Dropping the callback requests drops what they owe. */
  lemma {:induction false} BlockingOweLess(cbs: seq<Cb>)
    ensures Ledger.Sum(Charges(Blocking(cbs))) <= Ledger.Sum(Charges(cbs))
    ensures (exists j :: 0 <= j < |cbs| && cbs[j].req.callback && cbs[j].descNr > 0) ==>
              Ledger.Sum(Charges(Blocking(cbs))) < Ledger.Sum(Charges(cbs))
  {
    hide Blocking, Ledger.Sum;
    Ledger.SumHead(Charges(cbs));
    if |cbs| > 0 {
      BlockingOweLess(cbs[1..]);
      BlockingHead(cbs);
      assert Charges(cbs)[1..] == Charges(cbs[1..]);
      assert forall j :: 0 < j < |cbs| ==> cbs[j] == cbs[1..][j - 1];
      var b := Blocking(cbs);
      if !cbs[0].req.callback {
        Ledger.SumHead(Charges(b));
        assert Charges(b)[1..] == Charges(b[1..]) && b[1..] == Blocking(cbs[1..]);
      } else {
        assert b == Blocking(cbs[1..]);
      }
    } else {
      BlockingFrom(cbs);
      Ledger.SumHead(Charges(Blocking(cbs)));
    }
  }

  lemma {:induction false} BlockingAll(cbs: seq<Cb>)
    requires forall j :: 0 <= j < |cbs| ==> !cbs[j].req.callback
    ensures Blocking(cbs) == cbs
  {
    if |cbs| > 0 {
      BlockingAll(cbs[..|cbs| - 1]);
    }
  }

  lemma StopFrame(s: State)
    ensures var t := StopEndStep(s);
            && t == s.(online := false, stopWait := false, pend := Blocking(s.pend), work := Blocking(s.work),
                       workReqPend := t.workReqPend, outcomes := t.outcomes, again := t.again, stale := t.stale)
  {
    hide Blocking, Tell, KeptIds, LinkedIds;
  }

  lemma StopIs(s: State)
    ensures var t, b := StopEndStep(s), Tell(BookOf(s), Flushed(|s.pend| + |s.work|));
            && t.pend == Blocking(s.pend) && t.work == Blocking(s.work)
            && t.outcomes == b.outcomes && t.again == b.again && t.stale == KeptIds(s.pend + s.work, LinkedIds(s))
  {
  }

  lemma StartsLater(t: State)
    requires !t.online && |t.pend| <= |t.stale|
    ensures Later(t, t)
  {
    assert t.stale[0..] == t.stale;
    Ledger.SumNothing(Charges(t.pend));
  }

  lemma StopTells(s: State)
    requires Inv(s)
    ensures |StopEndStep(s).outcomes| == |s.accepted|
  {
    hide EpochInv, MapInv, RingInv, CountInv, Tell, KeptIds, LinkedIds, CbInv;
    StopBook(s);
  }

  // ------------------------------------------------------------ what the ledger says at a stop

  /** Where the descriptors of a pending request end in the log: what is returned, less
      the credit in hand, plus what it and those before it owe. */
  lemma PendingEnds(s: State, i: nat)
    requires Reachable(s) && s.online && !s.dirty && |s.outcomes| <= i < |s.accepted| && Place(s, i) < |s.pend|
    ensures s.epoch <= i
    ensures LogStart(s, i + 1) + s.credit == s.consumed + Ledger.Sum(Charges(s.pend)[..Place(s, i) + 1])
    ensures s.credit < s.pend[0].descNr && LogStart(s, i) <= LogStart(s, i + 1) <= |s.log| == s.produced
    ensures Xfers(s.conf, s.log)[LogStart(s, i)..LogStart(s, i + 1)] == PlanOf(s.accepted[i], s.conf.keyhole)
  {
    hide Reachable, LedgerInv, Ledger.Join, Ledger.Sum, Plans, Xfers, PlanOf, FlagDown, RosterInv, Roster, RingInv;
    CleanEpoch(s);
    RosterBounds(s);
    RosterAt(s, i);
    LogIs(s);
    assert Charges(s.pend)[0] == s.pend[0].descNr;
    RosterPending(s, Place(s, i));
  }

  lemma LogIs(s: State)
    requires RingInv(s)
    ensures |s.log| == s.produced
  {
  }

  /** The same along the roster of the epoch. */
  lemma RosterPending(s: State, p: nat)
    requires RosterInv(s) && LedgerInv(s) && p < |s.pend|
    ensures var k, q := s.conf.keyhole, Retired(s) + p;
            && q < |Roster(s)| && |Charges(s.pend)| == |s.pend|
            && |Ledger.Join(Plans(Roster(s)[..q + 1], k))| + s.credit
               == s.consumed + Ledger.Sum(Charges(s.pend)[..p + 1])
            && s.credit < Charges(s.pend)[0]
            && var from, to := |Ledger.Join(Plans(Roster(s)[..q], k))|, |Ledger.Join(Plans(Roster(s)[..q + 1], k))|;
               from <= to <= |s.log| && Xfers(s.conf, s.log)[from..to] == PlanOf(Roster(s)[q], k)
  {
    hide Ledger.Balanced, Ledger.Join, Ledger.Sum, Plans, Xfers, PlanOf, RosterInv, Roster;
    RosterBounds(s);
    var plans, q := Plans(Roster(s), s.conf.keyhole), Retired(s) + p;
    Ledger.PendingEnd(plans, Retired(s), Charges(s.pend), PartialCharge(s), s.credit, s.consumed,
      Xfers(s.conf, s.log), p);
    Ledger.IssuedSegment(plans, Retired(s), Charges(s.pend), PartialCharge(s), s.credit, s.consumed,
      Xfers(s.conf, s.log), q);
    PlansPrefix(Roster(s), q, s.conf.keyhole);
    PlansPrefix(Roster(s), q + 1, s.conf.keyhole);
    PlanAt(Roster(s), q, s.conf.keyhole);
  }

  /** A request with a callback stands before place `p`. */
  ghost predicate CallbackAhead(s: State, p: nat)
    requires p <= |s.pend|
  {
    exists j :: 0 <= j < p && s.pend[j].req.callback
  }

  // ------------------------------------------------------------ being told again

  /** The queue after a stop and some more hardware progress. */
  ghost predicate Halted(s: State, u: State) {
    && Inv(u) && !u.online && u.ring != [] && u.conf == s.conf && u.log == s.log && u.epoch == s.epoch
    && u.carried == s.carried && u.accepted == s.accepted && u.dirty == s.dirty
    && u.credit == s.credit && u.consumed == s.consumed
    && u.pend == StopEndStep(s).pend && u.stale == StopEndStep(s).stale && u.outcomes == StopEndStep(s).outcomes
  }

  lemma HaltedAt(s: State, timedOut: bool, h: nat)
    requires Inv(s) && Enabled(s, StopEnd(timedOut)) && s.hardware + h <= s.published
    ensures ConfOk(s.conf) && Inv(StopEndStep(s))
    ensures var u := HardwareStep(StopEndStep(s), h); Halted(s, u) && u.hardware == s.hardware + h
    ensures StopEndStep(s).hardware == s.hardware && StopEndStep(s).published == s.published
    ensures StopEndStep(s).conf == s.conf && !StopEndStep(s).online
  {
    hide EpochInv, OutcomeInv, MapInv, CountInv, ListInv, StopEndStep;
    StopFrame(s);
    StopKeeps(s);
    HardwareKeeps(StopEndStep(s), h);
  }

  lemma StopReady(s: State, timedOut: bool)
    requires Inv(s) && Enabled(s, StopEnd(timedOut))
    ensures ConfOk(s.conf) && Inv(StopEndStep(s))
    ensures StopEndStep(s).conf == s.conf && !StopEndStep(s).online
  {
    hide EpochInv, OutcomeInv, MapInv, CountInv, ListInv, RingInv, StopEndStep;
    StopFrame(s);
    StopKeeps(s);
  }

  lemma InvLists(s: State)
    requires Inv(s)
    ensures ListInv(s) && OutcomeInv(s)
  {
  }

  /** A late pass with credit for the blocking requests up to request `i` tells it that
      it is done. */
  lemma LateTells(s: State, u: State, i: nat)
    requires Inv(s) && Halted(s, u) && |s.outcomes| <= i < |s.accepted| && !s.accepted[i].callback
    requires Place(s, i) < |s.pend| && u.hardware > u.consumed
    requires Ledger.Sum(Charges(Blocking(s.pend[..Place(s, i) + 1]))) <= u.credit + (u.hardware - u.consumed)
    ensures TimesTold(CompleteStep(u), i) > 1
    ensures Again(i, Outcome(s.accepted[i].count, 0)) in CompleteStep(u).again
  {
    hide EpochInv, MapInv, CountInv, OutcomeInv, RingInv, ListInv, Blocking, StopEndStep, CompleteStep, Retire,
         DoneOutcomes, Tell, Ledger.Pay, LinkedIds, Charges, TimesTold;
    PlaceIs(s, i);
    StopPlace(s, Place(s, i));
    StopTells(s);
    var k := |Blocking(s.pend[..Place(s, i)])|;
    LatePays(u, k);
    LateAgain(u, k, i);
  }

  lemma LatePays(u: State, k: nat)
    requires RingInv(u) && ListInv(u) && k < |u.pend| && u.hardware > u.consumed
    requires Ledger.Sum(Charges(u.pend[..k + 1])) <= u.credit + (u.hardware - u.consumed)
    ensures Retire(u.pend, u.credit + (u.hardware - u.consumed)).0 > k
  {
    hide RingInv, ListInv;
    PositiveCharges(u);
    assert Charges(u.pend)[..k + 1] == Charges(u.pend[..k + 1]);
    Ledger.PayAtLeast(Charges(u.pend), k + 1, u.credit + (u.hardware - u.consumed));
  }

  lemma LateAgain(u: State, k: nat, i: nat)
    requires Inv(u) && u.ring != [] && k < |u.pend| <= |u.stale| && u.stale[k] == i
    requires i < |u.outcomes| && i < |u.accepted| && u.hardware > u.consumed
    requires Retire(u.pend, u.credit + (u.hardware - u.consumed)).0 > k
    ensures TimesTold(CompleteStep(u), i) > 1
    ensures Again(i, Outcome(u.accepted[i].count, 0)) in CompleteStep(u).again
  {
    hide EpochInv, MapInv, CountInv, Retire, DoneOutcomes, Tell, RingInv, ListInv, OutcomeInv, CompleteStep, Linked,
         Ledger.Pay;
    CompleteParts(u);
    CompleteFrame(u);
    var n := Retire(u.pend, u.credit + (u.hardware - u.consumed)).0;
    var os, v := DoneOutcomes(u.pend[..n]), CompleteStep(u);
    TellIs(BookOf(u), os);
    StaleDone(u, n, k);
    var m := Min(n, |u.stale|);
    assert v.again == u.again + Agains(u.stale[..m], os[..m]);
    assert v.again[|u.again| + k] == Again(i, Outcome(u.accepted[i].count, 0));
    CountAgainZero(v.again, i);
  }

  lemma StaleDone(u: State, n: nat, k: nat)
    requires ListInv(u) && k < n <= |u.pend| && k < |u.stale|
    ensures u.stale[k] < |u.accepted| && DoneOutcomes(u.pend[..n])[k] == Outcome(u.accepted[u.stale[k]].count, 0)
  {
    hide HeadInv, Untouched;
    LinkedAccepted(u, k);
    PaidOutcomes(u.pend, Requests(u.work), n);
  }

  /** When the hardware finishes after a stop, one completion pass retires every
      request that stayed pending. */
  lemma LateRetiresAll(s: State, timedOut: bool, u: State)
    requires Reachable(s) && !s.dirty && Enabled(s, StopEnd(timedOut)) && |s.pend| > 0
    requires Halted(s, u) && u.hardware == s.produced
    ensures u.hardware > u.consumed
    ensures Retire(u.pend, u.credit + (u.hardware - u.consumed)).0 == |u.pend|
  {
    hide Reachable, Inv, StopEndStep, Blocking, Charges, Retire, Ledger.Sum;
    CreditConservation(s);
    PassRetires(s);
    StopIs(s);
    HaltedLists(s, u);
    BlockingOweLess(s.pend);
    PaysEverybody(u, u.credit + (u.hardware - u.consumed));
  }

  lemma HaltedLists(s: State, u: State)
    requires Halted(s, u)
    ensures ListInv(u) && u.pend == StopEndStep(s).pend
  {
    hide StopEndStep;
  }

  lemma PaysEverybody(u: State, credit: nat)
    requires ListInv(u) && credit > 0 && Ledger.Sum(Charges(u.pend)) <= credit
    ensures Retire(u.pend, credit).0 == |u.pend|
  {
    PositiveCharges(u);
    hide ListInv, Charges;
    Ledger.PayAll(Charges(u.pend), credit);
  }

  /** A late pass after the hardware has finished tells every blocking request that was
      pending. */
  lemma ToldByInterrupt(s: State, timedOut: bool, i: nat) returns (es: seq<Event>)
    requires Reachable(s) && !s.dirty && Enabled(s, StopEnd(timedOut)) && |s.outcomes| <= i < |s.accepted|
    requires !s.conf.polling && Place(s, i) < |s.pend| && !s.accepted[i].callback
    ensures ConfOk(s.conf) && StopEndStep(s).conf == s.conf
    ensures var t := StopEndStep(s);
            Possible(t, es) && NoStart(es) && TimesTold(Run(t, es), i) > 1
  {
    hide Reachable, Inv, Run, Possible, TimesTold, StopEndStep, CompleteStep, HardwareStep, Blocking, LogStart, Xfers,
         PlanOf, Ledger.Sum, Halted;
    ReachableInv(s);
    PassRetires(s);
    var t, h := StopEndStep(s), s.published - s.hardware;
    HaltedAt(s, timedOut, h);
    TwoSteps(t, h);
    var u := HardwareStep(t, h);
    PendingEnds(s, i);
    BlockingFits(s, Place(s, i));
    HaltedIs(s, u);
    LateTells(s, u, i);
    es := [Hardware(h), Complete];
    assert NoStart(es);
  }

  lemma HaltedIs(s: State, u: State)
    requires Halted(s, u)
    ensures u.credit == s.credit && u.consumed == s.consumed && u.dirty == s.dirty && u.log == s.log
    ensures u.epoch == s.epoch && u.carried == s.carried && u.accepted == s.accepted && u.conf == s.conf
  {
  }

  /** What the blocking requests up to place `p` owe, against what all up to it do. */
  lemma BlockingFits(s: State, p: nat)
    requires p < |s.pend|
    ensures Ledger.Sum(Charges(Blocking(s.pend[..p + 1]))) <= Ledger.Sum(Charges(s.pend)[..p + 1])
    ensures (exists j :: 0 <= j <= p && s.pend[j].req.callback && s.pend[j].descNr > 0) ==>
              Ledger.Sum(Charges(Blocking(s.pend[..p + 1]))) < Ledger.Sum(Charges(s.pend)[..p + 1])
  {
    hide Blocking, Ledger.Sum;
    BlockingOweLess(s.pend[..p + 1]);
    assert Charges(s.pend)[..p + 1] == Charges(s.pend[..p + 1]);
    assert forall j :: 0 <= j <= p ==> s.pend[..p + 1][j] == s.pend[j];
  }

  /** A request linked at a stop is told the refusal; it can be told something else
      later exactly when it is blocking, was pending, and the driver takes interrupts,
      whose completion pass does not ask whether the queue is still online. */
  lemma ToldAgainIff(s: State, timedOut: bool, i: nat)
    requires Reachable(s) && !s.dirty && Enabled(s, StopEnd(timedOut)) && |s.outcomes| <= i < |s.accepted|
    ensures var t := StopEndStep(s);
            && Inv(t)
            && ((exists es :: Possible(t, es) && NoStart(es) && TimesTold(Run(t, es), i) > 1)
                <==> !s.conf.polling && Place(s, i) < |s.pend| && !s.accepted[i].callback)
  {
    hide Reachable, Inv, StopEndStep, Run, Possible, TimesTold, Halted;
    ReachableInv(s);
    StopReady(s, timedOut);
    var t := StopEndStep(s);
    if es :| Possible(t, es) && NoStart(es) && TimesTold(Run(t, es), i) > 1 {
      OnlyPending(s, timedOut, es, i);
    }
    if !s.conf.polling && Place(s, i) < |s.pend| && !s.accepted[i].callback {
      var es := ToldByInterrupt(s, timedOut, i);
    }
  }

  /** Who was told again was pending and unlinked since. */
  lemma OnlyPending(s: State, timedOut: bool, es: seq<Event>, i: nat)
    requires Inv(s) && Enabled(s, StopEnd(timedOut)) && |s.outcomes| <= i < |s.accepted|
    requires ConfOk(s.conf) && StopEndStep(s).conf == s.conf
    requires var t := StopEndStep(s);
             Possible(t, es) && NoStart(es) && TimesTold(Run(t, es), i) > 1
    ensures !s.conf.polling && Place(s, i) < |s.pend| && !s.accepted[i].callback
    ensures var t, u := StopEndStep(s), Run(StopEndStep(s), es);
            && Later(t, u) && Inv(u) && |t.pend| <= |t.stale|
            && i in t.stale[..|t.pend| - |u.pend|]
  {
    hide Inv, Run, Possible, TimesTold, Later, StopEndStep, Halted;
    StopReady(s, timedOut);
    var t := StopEndStep(s);
    StopStale(s, i);
    StopAgain(s);
    StartsLater(t);
    LateRun(t, t, es);
    ToldTwice(t, Run(t, es), i);
  }

  lemma ToldTwice(t: State, u: State, i: nat)
    requires Later(t, u) && TimesTold(u, i) > 1 && forall a :: a in t.again ==> a.id != i
    ensures !t.conf.polling && i in t.stale[..|t.pend| - |u.pend|] && i in t.stale[..|t.pend|]
  {
    hide Ledger.PaidDown;
    CountAgainZero(u.again, i);
    var a :| a in u.again && a.id == i;
  }

  // ------------------------------------------------------------ false success

  /** Request `i` was told that it is done while some descriptor of it is with the
      hardware. */
  ghost predicate FalseSuccess(s: State, i: nat) {
    && s.epoch <= i < |s.accepted| && Again(i, Outcome(s.accepted[i].count, 0)) in s.again
    && s.hardware < LogStart(s, i + 1)
  }

  /** With no callback request ahead, a request is told again only after all its
      descriptors were returned. */
  lemma NoneAheadPaid(s: State, timedOut: bool, es: seq<Event>, i: nat)
    requires Reachable(s) && !s.dirty && Enabled(s, StopEnd(timedOut)) && |s.outcomes| <= i < |s.accepted|
    requires ConfOk(s.conf) && StopEndStep(s).conf == s.conf
    requires Place(s, i) <= |s.pend| && !CallbackAhead(s, Place(s, i))
    requires var t := StopEndStep(s);
             Possible(t, es) && NoStart(es) && TimesTold(Run(t, es), i) > 1
    ensures s.epoch <= i && LogStart(s, i + 1) <= Run(StopEndStep(s), es).consumed
    ensures Later(StopEndStep(s), Run(StopEndStep(s), es)) && Inv(Run(StopEndStep(s), es))
  {
    hide Reachable, Inv, Run, Possible, TimesTold, Later, StopEndStep, LogStart, Xfers, PlanOf, Ledger.Sum;
    ReachableInv(s);
    OnlyPending(s, timedOut, es, i);
    PendingEnds(s, i);
    var t, u, p := StopEndStep(s), Run(StopEndStep(s), es), Place(s, i);
    InvLists(s);
    PrefixKept(s, p);
    PlaceIs(s, i);
    UnlinkedPast(s, t, |t.pend| - |u.pend|, i);
    StopFrame(s);
    PaidUpTo(t, u, p + 1);
  }

  /** The pending requests up to a blocking one with no callback ahead all stay. */
  lemma PrefixKept(s: State, p: nat)
    requires ListInv(s) && OutcomeInv(s) && p < |s.pend| && !s.pend[p].req.callback && !CallbackAhead(s, p)
    ensures var t := StopEndStep(s);
            && p < |t.pend| <= |t.stale| && t.pend[..p + 1] == s.pend[..p + 1]
            && |LinkedIds(s)| == |s.pend + s.work| && t.stale[..p + 1] == LinkedIds(s)[..p + 1]
            && Charges(t.pend)[..p + 1] == Charges(s.pend)[..p + 1]
  {
    hide ListInv, OutcomeInv, LinkedIds, KeptIds, Blocking, Tell;
    LinkedIdsMatch(s);
    StopCounts(s);
    StopIs(s);
    hide StopEndStep;
    var a, b, ids := s.pend[..p + 1], s.pend[p + 1..] + s.work, LinkedIds(s);
    assert s.pend == a + s.pend[p + 1..] && s.pend + s.work == a + b && ids == ids[..p + 1] + ids[p + 1..];
    assert forall j :: 0 <= j <= p ==> a[j] == s.pend[j] && !s.pend[j].req.callback;
    BlockingAll(a);
    KeptAll(a, ids[..p + 1]);
    BlockingConcat(a, s.pend[p + 1..]);
    KeptConcat(a, b, ids[..p + 1], ids[p + 1..]);
    var t := StopEndStep(s);
    assert Charges(t.pend)[..p + 1] == Charges(t.pend[..p + 1]) && Charges(s.pend)[..p + 1] == Charges(a);
  }

  lemma {:induction false} KeptAll(cbs: seq<Cb>, ids: seq<nat>)
    requires |ids| == |cbs| && forall j :: 0 <= j < |cbs| ==> !cbs[j].req.callback
    ensures KeptIds(cbs, ids) == ids
  {
    KeptUnfold(cbs, ids);
    if |cbs| > 0 {
      var n := |cbs| - 1;
      KeptAll(cbs[..n], ids[..n]);
      assert ids == ids[..n] + [ids[n]];
    }
  }

  /** If request `i` is among the first `m` unlinked, these reach past its place. */
  lemma UnlinkedPast(s: State, t: State, m: nat, i: nat)
    requires ListInv(s) && OutcomeInv(s) && |s.outcomes| <= i < |s.accepted| && Place(s, i) < |s.pend|
    requires m <= |t.stale| && i in t.stale[..m] && Place(s, i) < |t.stale|
    requires |LinkedIds(s)| == |s.pend + s.work| && t.stale[..Place(s, i) + 1] == LinkedIds(s)[..Place(s, i) + 1]
    ensures m > Place(s, i)
  {
    hide ListInv, OutcomeInv, LinkedIds;
    PlaceIs(s, i);
    var p := Place(s, i);
    forall j | 0 <= j < p
      ensures t.stale[j] != i
    {
      assert t.stale[j] == t.stale[..p + 1][j] == LinkedIds(s)[..p + 1][j];
    }
  }

  lemma PaidUpTo(t: State, u: State, n: nat)
    requires Later(t, u) && n <= |t.pend| - |u.pend|
    ensures Ledger.Sum(Charges(t.pend)[..n]) <= t.credit + (u.consumed - t.consumed)
  {
    var m, owed := |t.pend| - |u.pend|, Charges(t.pend);
    assert owed[..m] == owed[..n] + owed[n..m];
    Ledger.SumConcat(owed[..n], owed[n..m]);
  }

  /** A blocking request pending at a stop can be told that it is done while the hardware
      still has some of its descriptors exactly when a callback request was pending ahead
      of it, whose descriptors then pay for it, and it was not finished at the stop. */
  lemma FalseSuccessIff(s: State, timedOut: bool, i: nat)
    requires Reachable(s) && !s.dirty && Enabled(s, StopEnd(timedOut)) && !s.conf.polling
    requires |s.outcomes| <= i < |s.accepted| && Place(s, i) < |s.pend| && !s.accepted[i].callback
    ensures var t := StopEndStep(s);
            && Inv(t) && s.epoch <= i
            && ((exists es :: Possible(t, es) && NoStart(es) && FalseSuccess(Run(t, es), i))
                <==> CallbackAhead(s, Place(s, i)) && s.hardware < LogStart(s, i + 1))
  {
    hide Reachable, Inv, StopEndStep, Run, Possible, FalseSuccess, Halted, LogStart, Xfers, PlanOf;
    ReachableInv(s);
    StopReady(s, timedOut);
    PendingEnds(s, i);
    var t := StopEndStep(s);
    if es :| Possible(t, es) && NoStart(es) && FalseSuccess(Run(t, es), i) {
      FalseOnly(s, timedOut, es, i);
    }
    if CallbackAhead(s, Place(s, i)) && s.hardware < LogStart(s, i + 1) {
      var es := FalseRun(s, timedOut, i);
    }
  }

  lemma FalseOnly(s: State, timedOut: bool, es: seq<Event>, i: nat)
    requires Reachable(s) && !s.dirty && Enabled(s, StopEnd(timedOut))
    requires |s.outcomes| <= i < |s.accepted| && Place(s, i) < |s.pend| && s.epoch <= i
    requires ConfOk(s.conf) && StopEndStep(s).conf == s.conf
    requires var t := StopEndStep(s);
             Possible(t, es) && NoStart(es) && FalseSuccess(Run(t, es), i)
    ensures CallbackAhead(s, Place(s, i)) && s.hardware < LogStart(s, i + 1)
  {
    hide Reachable, Inv, Run, Possible, Later, StopEndStep, LogStart, CallbackAhead, TimesTold;
    ReachableInv(s);
    StopTells(s);
    StopFrame(s);
    var t, u := StopEndStep(s), Run(StopEndStep(s), es);
    RunExtends(t, es);
    AgainCounts(u, i);
    OnlyPending(s, timedOut, es, i);
    LaterSame(t, u);
    SameStart(s, u, i + 1);
    OnlineRing(s);
    if !CallbackAhead(s, Place(s, i)) {
      NoneAheadPaid(s, timedOut, es, i);
      ConsumedFirst(u);
    }
  }

  lemma AgainCounts(u: State, i: nat)
    requires i < |u.outcomes| && exists o :: Again(i, o) in u.again
    ensures TimesTold(u, i) > 1
  {
    CountAgainZero(u.again, i);
  }

  lemma LaterSame(t: State, u: State)
    requires Later(t, u)
    ensures u.epoch == t.epoch && u.carried == t.carried && u.accepted == t.accepted && u.conf == t.conf
    ensures u.log == t.log
    ensures t.hardware <= u.hardware && u.outcomes == t.outcomes && u.dirty == t.dirty && u.ring == t.ring
  {
  }

  lemma SameStart(s: State, u: State, i: nat)
    requires s.epoch <= i <= |s.accepted|
    requires u.epoch == s.epoch && u.carried == s.carried && u.accepted == s.accepted && u.conf == s.conf
    ensures LogStart(u, i) == LogStart(s, i)
  {
  }

  lemma OnlineRing(s: State)
    requires Inv(s) && s.online
    ensures s.ring != []
  {
  }

  lemma ConsumedFirst(u: State)
    requires Inv(u)
    ensures u.ring != [] ==> u.consumed <= u.hardware <= |u.log|
  {
    hide EpochInv, OutcomeInv, MapInv, CountInv, ListInv;
  }

  /** The hardware stops one descriptor short of the end of request `i`: what the callback
      request ahead has had returned covers the rest. */
  lemma FalseRun(s: State, timedOut: bool, i: nat) returns (es: seq<Event>)
    requires Reachable(s) && !s.dirty && Enabled(s, StopEnd(timedOut)) && !s.conf.polling
    requires |s.outcomes| <= i < |s.accepted| && Place(s, i) < |s.pend| && !s.accepted[i].callback && s.epoch <= i
    requires CallbackAhead(s, Place(s, i)) && s.hardware < LogStart(s, i + 1)
    ensures ConfOk(s.conf) && StopEndStep(s).conf == s.conf
    ensures var t := StopEndStep(s);
            Possible(t, es) && NoStart(es) && FalseSuccess(Run(t, es), i)
  {
    hide Reachable, Inv, Run, Possible, StopEndStep, CompleteStep, HardwareStep, Blocking, LogStart, Xfers, PlanOf,
         Halted, Ledger.Sum, TimesTold;
    ReachableInv(s);
    PendingEnds(s, i);
    RoomAhead(s, i);
    var t, h := StopEndStep(s), LogStart(s, i + 1) - 1 - s.hardware;
    HaltedAt(s, timedOut, h);
    TwoSteps(t, h);
    var u := HardwareStep(t, h);
    HaltedIs(s, u);
    LateTells(s, u, i);
    CompleteFrame(u);
    SameStart(s, CompleteStep(u), i + 1);
    es := [Hardware(h), Complete];
    assert NoStart(es);
  }

  lemma RoomAhead(s: State, i: nat)
    requires Reachable(s) && s.online && !s.dirty && |s.outcomes| <= i < |s.accepted| && Place(s, i) < |s.pend|
    requires s.epoch <= i && CallbackAhead(s, Place(s, i))
    ensures LogStart(s, i + 1) > s.consumed + 1
    ensures Ledger.Sum(Charges(Blocking(s.pend[..Place(s, i) + 1]))) <= s.credit + (LogStart(s, i + 1) - 1 - s.consumed)
  {
    hide Reachable, Blocking, LogStart, Xfers, PlanOf;
    var p := Place(s, i);
    PendingEnds(s, i);
    PendingOwes(s);
    BlockingFits(s, p);
    Ledger.SumSnoc(Charges(s.pend), p);
    Ledger.SumPositive(Charges(s.pend)[..p]);
  }

  lemma PendingOwes(s: State)
    requires Reachable(s)
    ensures forall j :: 0 <= j < |s.pend| ==> s.pend[j].descNr > 0 && Charges(s.pend)[j] == s.pend[j].descNr
  {
    ReachableInv(s);
    hide EpochInv, OutcomeInv, MapInv, CountInv, RingInv, LinkInv;
  }

  /** A second success of a request with no callback ahead at the stop is a true one: all
      its descriptors were returned. */
  lemma SecondSuccessDone(s: State, timedOut: bool, es: seq<Event>, i: nat)
    requires Reachable(s) && !s.dirty && Enabled(s, StopEnd(timedOut)) && |s.outcomes| <= i < |s.accepted|
    requires ConfOk(s.conf) && StopEndStep(s).conf == s.conf
    requires Place(s, i) <= |s.pend| && !CallbackAhead(s, Place(s, i))
    requires var t := StopEndStep(s);
             Possible(t, es) && NoStart(es) && TimesTold(Run(t, es), i) > 1
    ensures var u := Run(StopEndStep(s), es);
            u.epoch <= i < |u.accepted| && DoneAt(u, i)
  {
    hide Reachable, Inv, Run, Possible, TimesTold, Later, StopEndStep, LogStart, Xfers, PlanOf;
    ReachableInv(s);
    OnlyPending(s, timedOut, es, i);
    NoneAheadPaid(s, timedOut, es, i);
    PendingEnds(s, i);
    var t, u := StopEndStep(s), Run(StopEndStep(s), es);
    StopFrame(s);
    LaterSame(t, u);
    SameStart(s, u, i);
    SameStart(s, u, i + 1);
    ConsumedFirst(u);
    PlanFits(s, i);
    OnlineRing(s);
  }

  lemma PlanFits(s: State, i: nat)
    requires s.epoch <= i < |s.accepted|
    ensures LogStart(s, i) + |PlanOf(s.accepted[i], s.conf.keyhole)| == LogStart(s, i + 1)
  {
    hide PlanOf;
    var k, rs := s.conf.keyhole, s.carried + s.accepted[s.epoch..i + 1];
    var q := |s.carried| + (i - s.epoch);
    assert rs[..q] == s.carried + s.accepted[s.epoch..i] && rs[q] == s.accepted[i] && rs[..q + 1] == rs;
    PlansPrefix(rs, q, k);
    PlansPrefix(rs, q + 1, k);
    PlanAt(rs, q, k);
    Ledger.JoinSnoc(Plans(rs, k), 0, q);
    assert Plans(rs, k)[0..q] == Plans(rs, k)[..q] && Plans(rs, k)[0..q + 1] == Plans(rs, k)[..q + 1];
  }

  // ------------------------------------------------------------ witnesses

  /** One blocking request pending at a stop that gave up waiting. */
  lemma StoppedWaiting(c: Conf) returns (s: State)
    requires ConfOk(c)
    ensures Reachable(s) && s.conf == c && s.online && Quiet(s) && s.stopWait && s.produced == s.hardware == 1
    ensures s.consumed == s.credit == 0 && s.work == [] && s.pend == [Waiting(false).(descNr := 1)]
    ensures |s.accepted| == 1 && s.outcomes == [] && s.stale == [] && s.again == []
  {
    hide Reachable, Waiting;
    WaitingIs(false);
    var s0 := Init(c);
    InitReachable(c);
    ReachableStep(s0, Start);
    var s1 := Step(s0, Start);
    var s2 := QueueOne(s1);
    var s3 := IssueEmpty(s2, Waiting(false));
    ReachableStep(s3, Publish);
    var s4 := Step(s3, Publish);
    ReachableStep(s4, StopBegin);
    var s5 := Step(s4, StopBegin);
    ReachableStep(s5, Hardware(1));
    s := Step(s5, Hardware(1));
  }

  lemma QueueOne(s: State) returns (t: State)
    requires Reachable(s) && s.online && Quiet(s) && s.work == []
    ensures Reachable(t)
    ensures t == s.(work := [Waiting(false)], workReqPend := t.workReqPend, accepted := t.accepted,
                    mapFailed := t.mapFailed)
    ensures |t.accepted| == |s.accepted| + 1
  {
    hide Reachable;
    var r := EmptyRequest(false);
    ReachableInv(s);
    hide Inv;
    ReachableStep(s, Submit(r));
    t := Step(s, Submit(r));
    assert s.work + Fresh([r]) == [Cb(r, 0, 0)];
  }

  /** The shortest run that tells a request twice: refused by the stop, and done when
      the interrupt arrives. */
  lemma LateWitness(c: Conf) returns (s: State)
    requires ConfOk(c) && !c.polling
    ensures Reachable(s) && s.conf == c && !s.online && |s.accepted| == 1
    ensures s.outcomes == [Refused()] && s.again == [Again(0, Outcome(0, 0))] && TimesTold(s, 0) == 2
  {
    hide Reachable, Waiting, TimesTold, StopEndStep, CompleteStep;
    var s0 := StoppedWaiting(c);
    ReachableStep(s0, StopEnd(true));
    var s1 := StopEndStep(s0);
    WaitingIs(false);
    OneKept(s0, Waiting(false).(descNr := 1));
    StopFrame(s0);
    ReachableStep(s1, Complete);
    s := CompleteStep(s1);
    PaysOne(s1, Waiting(false).(descNr := 1), 0);
    assert CountAgain(s.again, 0) == 1 by { assert s.again[..0] == []; }
    ToldIs(s, 0);
  }

  lemma OneKept(s: State, cb: Cb)
    requires s.pend == [cb] && s.work == [] && !cb.req.callback
    requires |s.accepted| == 1 && s.outcomes == [] && s.stale == [] && s.again == []
    ensures var t := StopEndStep(s);
            t.pend == [cb] && t.work == [] && t.stale == [0] && t.again == [] && t.outcomes == [Refused()]
  {
    hide StopEndStep, Tell, Blocking, KeptIds;
    StopIs(s);
    KeptUnfold([], []);
    KeptUnfold([cb], [0]);
    assert LinkedIds(s) == [0] && [cb] + [] == [cb] && [cb][..0] == [] && [0][..0] == [];
    TellFresh(BookOf(s), Flushed(1));
    assert [] + Flushed(1) == [Refused()];
  }

  /** Two empty requests pending at a stop that gave up waiting. */
  lemma StoppedPending(c: Conf, first: bool) returns (s: State)
    requires ConfOk(c) && c.rngsz >= 3
    ensures Reachable(s) && s.conf == c && s.online && !s.dirty && Quiet(s) && s.stopWait && s.produced == 2
    ensures s.consumed == s.hardware == s.credit == 0 && s.work == []
    ensures s.pend == [Waiting(first).(descNr := 1), Waiting(false).(descNr := 1)]
    ensures s.accepted == [EmptyRequest(first), EmptyRequest(false)] && s.epoch == 0 && s.carried == []
    ensures s.outcomes == [] && s.stale == [] && s.again == []
  {
    hide Reachable, Waiting;
    var s3 := TwoEmptyRequests(c, first, false);
    WaitingIs(first);
    WaitingIs(false);
    var s4 := IssueEmpty(s3, Waiting(first));
    var s5 := IssueEmpty(s4, Waiting(false));
    ReachableStep(s5, Publish);
    var s6 := Step(s5, Publish);
    ReachableStep(s6, StopBegin);
    s := Step(s6, StopBegin);
  }

  lemma WaitingIs(callback: bool)
    ensures var cb := Waiting(callback);
            cb.req == EmptyRequest(callback) && cb.offset == cb.descNr == cb.req.count == 0
  {
  }

  /** The stop keeps the blocking one of them linked. */
  lemma StoppedKeeps(s: State)
    requires s.pend == [Waiting(true).(descNr := 1), Waiting(false).(descNr := 1)] && s.work == []
    requires |s.accepted| == 2 && s.outcomes == [] && s.stale == [] && s.again == []
    ensures var t := StopEndStep(s);
            && t.pend == [Waiting(false).(descNr := 1)] && t.work == [] && t.stale == [1] && t.again == []
            && t.outcomes == [Refused(), Refused()]
  {
    hide StopEndStep, Waiting, KeptIds, Blocking, LinkedIds, Tell;
    var a, b := s.pend[0], s.pend[1];
    WaitingIs(true);
    WaitingIs(false);
    StopIs(s);
    assert LinkedIds(s) == [0, 1] by { TwoLinked(s); }
    assert s.pend + s.work == [a, b];
    KeptPair(a, b);
    TellFresh(BookOf(s), Flushed(2));
    assert [] + Flushed(2) == [Refused(), Refused()];
  }

  lemma TwoLinked(s: State)
    requires |s.accepted| == 2 && s.outcomes == [] && s.stale == []
    ensures LinkedIds(s) == [0, 1]
  {
  }

  lemma KeptPair(a: Cb, b: Cb)
    requires a.req.callback && !b.req.callback
    ensures KeptIds([a, b], [0, 1]) == [1] && Blocking([a, b]) == [b] && Blocking([]) == []
  {
    hide KeptIds, Blocking;
    KeptUnfold([a, b], [0, 1]);
    KeptUnfold([a], [0]);
    KeptUnfold([], []);
    assert [a, b][..1] == [a] && [a][..0] == [] && [0, 1][..1] == [0] && [0][..0] == [];
  }

  /** In an interrupt mode a blocked submitter, refused by a stop, can be told that it
      is done while its descriptor is still with the hardware: the callback request
      before it was unlinked, so the first descriptor returned pays for the second. */
  lemma LateSuccess(c: Conf) returns (s: State)
    requires ConfOk(c) && c.rngsz >= 3 && !c.polling
    ensures Reachable(s) && s.conf == c && !s.online && |s.accepted| == 2 && s.epoch == 0
    ensures s.outcomes == [Refused(), Refused()] && s.again == [Again(1, Outcome(0, 0))]
    ensures TimesTold(s, 1) == 2 && s.accepted[1].count == 0
    ensures s.hardware < LogStart(s, 2) && FalseSuccess(s, 1)
  {
    hide Reachable, Waiting, LogStart, TimesTold, StopEndStep, CompleteStep;
    var s0 := StoppedPending(c, true);
    ReachableStep(s0, StopEnd(true));
    var s1 := StopEndStep(s0);
    StoppedKeeps(s0);
    StopFrame(s0);
    ReachableStep(s1, Hardware(1));
    var s2 := HardwareStep(s1, 1);
    ReachableStep(s2, Complete);
    s := CompleteStep(s2);
    WaitingIs(false);
    PaysOne(s2, Waiting(false).(descNr := 1), 1);
    TwoPlans(s);
    assert CountAgain(s.again, 1) == 1 by { assert s.again[..0] == []; }
    ToldIs(s, 1);
  }

  lemma ToldIs(s: State, i: nat)
    ensures TimesTold(s, i) == (if i < |s.outcomes| then 1 else 0) + CountAgain(s.again, i)
  {
  }

  lemma PaysOne(s: State, cb: Cb, id: nat)
    requires Reachable(s) && s.pend == [cb] && cb.descNr == 1 && cb.offset == cb.req.count && s.credit == 0
    requires s.hardware == s.consumed + 1 && s.stale == [id] && s.again == []
    ensures var t := CompleteStep(s);
            && t == s.(cidx := t.cidx, avail := t.avail, credit := t.credit, pend := t.pend, drained := t.drained,
                       doorbell := t.doorbell, consumed := t.consumed, stale := t.stale, again := t.again)
            && t.again == [Again(id, Outcome(cb.req.count, 0))]
  {
    ReachableInv(s);
    hide EpochInv, OutcomeInv, MapInv, ListInv;
    CompleteRing(s);
    CompleteFrame(s);
    assert s.ring != [];
    hide Inv, RingInv;
    assert Charges([cb]) == [1] && [1][1..] == [] && [cb][..1] == [cb];
    assert Ledger.Pay([1], 1) == (1, [], 0);
    var os := DoneOutcomes([cb]);
    assert Tell(BookOf(s), os).outcomes == s.outcomes;
  }

  /** Two empty requests cost one descriptor each. */
  lemma TwoPlans(s: State)
    requires ConfOk(s.conf) && s.epoch == 0 && s.carried == [] && |s.accepted| == 2
    requires s.accepted[0].count == 0 && WellFormed(s.accepted[0], s.conf.keyhole)
    requires s.accepted[1].count == 0 && WellFormed(s.accepted[1], s.conf.keyhole)
    ensures LogStart(s, 2) == 2
  {
    assert s.carried + s.accepted[0..2] == s.accepted;
    var ps := Plans(s.accepted, s.conf.keyhole);
    assert |ps[0]| == 1 && |ps[1]| == 1;
    assert ps[..1][..0] == [];
    assert Ledger.Join(ps[..0]) == [];
    assert ps[..1][0] == ps[0];
    assert |Ledger.Join(ps[..1])| == 1;
  }

  // ------------------------------------------------------------ failed mappings

  ghost function Unmapped(): (r: Request)
    ensures WellFormed(r, 0) && !Addressed(r) && r.callback && r.count == 2
  {
    var r := Request(0, 2, [Sg(2, U64 - 1)], true);
    assert Prefix(r.sgl, 1) == Prefix(r.sgl, 0) + 2;
    r
  }

  lemma QueuedUnmapped() returns (s: State)
    ensures Reachable(s) && Enabled(s, StopEnd(false)) && s.accepted == [Unmapped()] && s.mapFailed == [true]
    ensures s.outcomes == [] && s.stale == [] && s.again == [] && |s.pend| + |s.work| == 1
  {
    hide Reachable, Unmapped;
    var c, r := Conf(2, 0, false, false, false), Unmapped();
    var s0 := Init(c);
    InitReachable(c);
    ReachableStep(s0, Start);
    var s1 := Step(s0, Start);
    ReachableStep(s1, Batch([r], [true]));
    var s2 := Step(s1, Batch([r], [true]));
    ReachableStep(s2, StopBegin);
    s := Step(s2, StopBegin);
    assert [] + [r] == [r] && [] + [true] == [true];
  }

  /** A batched request whose mapping failed is called back, queued with the error
      value for an address, and called back again by the next stop. */
  lemma CalledTwice() returns (s: State)
    ensures Reachable(s) && !s.online && s.accepted == [Unmapped()] && s.mapFailed == [true]
    ensures s.outcomes == [Refused()] && s.again == [] && Calls(s, 0) == 2
  {
    hide Reachable, Unmapped, StopEndStep, Tell, Blocking;
    var s0 := QueuedUnmapped();
    ReachableStep(s0, StopEnd(false));
    s := StopEndStep(s0);
    StopFrame(s0);
    StopIs(s0);
    TellFresh(BookOf(s0), Flushed(1));
    assert [] + Flushed(1) == [Refused()];
  }
}
