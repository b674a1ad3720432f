// A start on top of what a stop left linked.
module Restart {
  import opened Scatter
  import opened Plan
  import opened Ring
  import opened QueueSpec
  import opened QueueInv
  import opened QueueRuns
  import opened Aftermath
  import Ledger

  ghost predicate SameEpoch(es: seq<Event>) {
    forall i :: 0 <= i < |es| ==> !es[i].StopEnd?
  }

  /** A request refused by an earlier stop comes back: its descriptors are sent, or it
      is told a second outcome. */
  ghost predicate Haunts(s: State, e: Event) {
    && Enabled(s, e)
    && ((e.Issue? && |s.pend| < |s.stale|) || (e.Complete? && CompleteStep(s).again != s.again))
  }

  /** No request refused earlier comes back before the next stop. */
  ghost predicate Sound(u: State)
    requires ConfOk(u.conf)
  {
    forall es, e :: SameEpoch(es) && Possible(u, es) ==> !Haunts(Run(u, es), e)
  }

  // ------------------------------------------------------------ clean starts

  /** An online queue last started with empty lists. */
  ghost predicate Clean(s: State) {
    Inv(s) && s.online && !s.dirty && s.carried == []
  }

  lemma CleanStep(s: State, e: Event)
    requires Clean(s) && Enabled(s, e) && !e.StopEnd?
    ensures Clean(Step(s, e)) && !Haunts(s, e)
  {
    hide OutcomeInv, MapInv, CountInv, ListInv, IssueStep, CompleteStep, LedgerInv, FlagDown;
    StepKeeps(s, e);
    if e.Issue? {
      IssueFrame(s);
    } else if e.Complete? {
      CompleteFrame(s);
      CleanComplete(s);
    }
  }

  lemma CleanComplete(s: State)
    requires s.stale == []
    ensures CompleteStep(s).again == s.again
  {
    hide Retire, DoneOutcomes, Tell;
    var d := WrappedDiff(s.writeback, s.cidx, s.conf.rngsz);
    var n := Retire(s.pend, s.credit + if d < 0 then 0 else d).0;
    TellFresh(BookOf(s), DoneOutcomes(s.pend[..n]));
  }

  lemma {:induction false} CleanRun(s: State, es: seq<Event>)
    requires ConfOk(s.conf) && Clean(s) && Possible(s, es) && SameEpoch(es)
    ensures Clean(Run(s, es))
    decreases |es|
  {
    hide Clean, Enabled, Step;
    if |es| > 0 {
      CleanStep(s, es[0]);
      CleanRun(Step(s, es[0]), es[1..]);
    }
  }

  lemma CleanSound(s: State)
    requires ConfOk(s.conf) && Clean(s)
    ensures Sound(s)
  {
    hide Clean, Haunts;
    forall es, e | SameEpoch(es) && Possible(s, es)
      ensures !Haunts(Run(s, es), e)
    {
      CleanRun(s, es);
      if Haunts(Run(s, es), e) {
        HauntEnabled(Run(s, es), e);
        CleanStep(Run(s, es), e);
      }
    }
  }

  lemma HauntEnabled(s: State, e: Event)
    requires Haunts(s, e)
    ensures Enabled(s, e) && !e.StopEnd?
  {
  }

  // ------------------------------------------------------------ haunted starts

  /** Nothing queued, nothing with the hardware, a refused request still pending. */
  ghost predicate Idle(s: State) {
    && s.online && !s.stopWait && s.work == [] && |s.pend| > 0 && |s.stale| > 0 && s.credit == 0
    && s.consumed == s.hardware == s.published == s.produced && s.avail == s.conf.rngsz - 1
  }

  /** One new request, worked off. */
  function Round(r: Request): seq<Event> {
    [Submit(r), Issue, Publish, Hardware(1)]
  }

  lemma FourSteps(s: State, es: seq<Event>, s1: State, s2: State, s3: State)
    requires ConfOk(s.conf) && |es| == 4
    requires Enabled(s, es[0]) && s1 == Step(s, es[0]) && Enabled(s1, es[1]) && s2 == Step(s1, es[1])
    requires Enabled(s2, es[2]) && s3 == Step(s2, es[2]) && Enabled(s3, es[3])
    ensures Traced(s, es, Step(s3, es[3]))
  {
    hide Enabled, Step, Traced;
    TraceNothing(s);
    assert [] + [es[0]] == [es[0]] && [es[0]] + [es[1]] == [es[0], es[1]];
    assert [es[0], es[1]] + [es[2]] == [es[0], es[1], es[2]] && [es[0], es[1], es[2]] + [es[3]] == es;
    TraceOne(s, [], s, es[0]);
    TraceOne(s, [es[0]], s1, es[1]);
    TraceOne(s, [es[0], es[1]], s2, es[2]);
    TraceOne(s, [es[0], es[1], es[2]], s3, es[3]);
  }

  lemma PlaySubmit(s: State, r: Request) returns (t: State)
    requires Reachable(s) && Idle(s) && r == EmptyRequest(true)
    ensures Enabled(s, Submit(r)) && t == Step(s, Submit(r)) && Reachable(t)
    ensures t == s.(work := [Waiting(true)], workReqPend := t.workReqPend, accepted := t.accepted,
                    mapFailed := t.mapFailed)
  {
    hide Reachable, EmptyRequest;
    ReachableInv(s);
    hide Inv;
    ReachableStep(s, Submit(r));
    t := Step(s, Submit(r));
    WaitingValue(true);
    assert s.work + Fresh([r]) == [Cb(r, 0, 0)];
  }

  lemma PlayRound(s: State) returns (t: State)
    requires Reachable(s) && Idle(s)
    ensures Traced(s, Round(EmptyRequest(true)), t) && Reachable(t)
    ensures t.online && !t.stopWait && t.work == [] && t.pend == s.pend + [Waiting(true).(descNr := 1)]
    ensures t.stale == s.stale && t.credit == 0
    ensures t.hardware == t.published == t.produced == t.consumed + 1
    ensures t.conf == s.conf
  {
    hide Reachable, Waiting, Traced, EmptyRequest, Inv, IssueStep, SubmitStep;
    ReachableInv(s);
    ConfIs(s);
    var r := EmptyRequest(true);
    WaitingIs(true);
    var s1 := PlaySubmit(s, r);
    var s2 := IssueEmpty(s1, Waiting(true));
    ReachableStep(s2, Publish);
    var s3 := Step(s2, Publish);
    ReachableStep(s3, Hardware(1));
    t := Step(s3, Hardware(1));
    FourSteps(s, Round(r), s1, s2, s3);
  }

  lemma WaitingValue(callback: bool)
    ensures Waiting(callback) == Cb(EmptyRequest(callback), 0, 0)
  {
  }

  /** The descriptor of the new request pays for the old one. */
  lemma OldOnePaid(s: State)
    requires Inv(s) && s.online && |s.pend| > 0 && |s.stale| > 0 && s.credit == 0 && s.hardware == s.consumed + 1
    ensures s.pend[0].descNr > 0 && s.conf.rngsz > 0
    ensures s.pend[0].descNr == 1 ==> |CompleteStep(s).again| > |s.again|
    ensures s.pend[0].descNr > 1 ==>
              var t := CompleteStep(s);
              && t.pend == [s.pend[0].(descNr := s.pend[0].descNr - 1)] + s.pend[1..] && t.credit == 0
              && t.stale == s.stale && t.consumed == s.hardware && t.avail == s.avail + 1
  {
    hide EpochInv, OutcomeInv, MapInv, CountInv, LinkInv, HeadInv, Untouched, Tell, DoneOutcomes;
    assert s.ring != [];
    CompleteRing(s);
    CompleteParts(s);
    var n := Retire(s.pend, 1).0;
    TellIs(BookOf(s), DoneOutcomes(s.pend[..n]));
    assert Charges(s.pend)[0] == s.pend[0].descNr;
  }

  lemma AvailIs(s: State)
    requires Inv(s) && s.online
    ensures s.avail == s.conf.rngsz - 1 - (s.produced - s.consumed)
  {
    hide EpochInv, OutcomeInv, MapInv, CountInv, ListInv;
  }

  /** Enough new requests, and the old one is told a second outcome. */
  lemma {:induction false} PendHaunts(s: State) returns (es: seq<Event>)
    requires Reachable(s) && Idle(s)
    ensures ConfOk(s.conf) && SameEpoch(es) && Possible(s, es) && Haunts(Run(s, es), Complete)
    decreases s.pend[0].descNr
  {
    hide Reachable, Inv, Waiting, CompleteStep, EmptyRequest;
    var t := PlayRound(s);
    var round := Round(EmptyRequest(true));
    ReachableInv(t);
    OldOnePaid(t);
    if t.pend[0].descNr == 1 {
      es := round;
    } else {
      ReachableStep(t, Complete);
      var u := CompleteStep(t);
      CompleteFrame(t);
      ReachableInv(u);
      AvailIs(u);
      var more := PendHaunts(u);
      TraceOne(s, round, t, Complete);
      RunConcat(s, round + [Complete], more);
      es := round + [Complete] + more;
    }
  }

  lemma WorkHaunts(s: State)
    requires Inv(s) && s.online && !s.stopWait && |s.work| > 0 && s.avail > 0 && |s.pend| < |s.stale|
    ensures Haunts(s, Issue) && SameEpoch([]) && Possible(s, []) && Run(s, []) == s
  {
    hide EpochInv, OutcomeInv, MapInv, CountInv, ListInv, RingInv;
    CanIssue(s);
  }

  lemma StoppedLists(t: State)
    requires Inv(t) && !t.online
    ensures |t.stale| == |t.pend| + |t.work| && !t.stopWait
  {
    hide EpochInv, MapInv, CountInv, CbInv, RingInv;
    LinkSizes(t);
  }

  /** A stopped queue can be started again safely exactly when its lists are empty;
      otherwise some run sends the descriptors of a refused request, or tells it a
      second outcome. */
  lemma RestartSoundIff(t: State)
    requires Reachable(t) && Enabled(t, Start)
    ensures ConfOk(t.conf) && (Sound(StartStep(t)) <==> t.pend == t.work == [])
  {
    hide Reachable, Inv, Possible, Run, Haunts;
    ReachableInv(t);
    ConfIs(t);
    StoppedLists(t);
    ReachableStep(t, Start);
    var u := StartStep(t);
    ReachableInv(u);
    if t.pend == t.work == [] {
      assert Linked(t) == [];
      CleanSound(u);
    } else if |t.work| > 0 {
      WorkHaunts(u);
      assert !Sound(u);
    } else {
      var es := PendHaunts(u);
      assert !Sound(u);
    }
  }

  // ------------------------------------------------------------ the accounts

  /** By how much what requests are charged exceeds what the hardware holds and the
      credit in hand. */
  function Excess(s: State): int {
    Ledger.Sum(Charges(s.pend)) + PartialCharge(s) - s.credit - (s.produced - s.consumed)
  }

  lemma CompleteExcess(s: State)
    requires RingInv(s) && ListInv(s)
    ensures Excess(CompleteStep(s)) == Excess(s)
  {
    hide RingInv, CbInv, LinkInv, Tell, Retire, Ledger.Sum, Ledger.Pay, Charges, CompleteStep, DoneOutcomes, Linked;
    CompleteRing(s);
    CompleteFrame(s);
    if s.hardware != s.consumed {
      RingOrder(s);
      CompleteParts(s);
      Ledger.PaySum(Charges(s.pend), s.credit + (s.hardware - s.consumed));
    }
  }

  lemma IssueExcess(s: State)
    requires ListInv(s) && IssueEnabled(s)
    ensures Excess(IssueStep(s)) == Excess(s)
  {
    hide LinkInv, HeadInv, WriteRing, PassDescs, IssueXfers, IssueCount, Linked;
    var cb := IssueCb(s);
    assert Charges(s.pend + [cb]) == Charges(s.pend) + [cb.descNr];
    Ledger.SumConcat(Charges(s.pend), [cb.descNr]);
    assert [cb.descNr][1..] == [];
    if |s.work| > 1 {
      assert s.work[1] == s.work[1..][0];
    }
  }

  lemma AcceptExcess(s: State, rs: seq<Request>)
    ensures Excess(s.(work := s.work + Fresh(rs))) == Excess(s)
  {
  }

  /** Online queues: no excess in an epoch begun without charged requests, and some in
      every other. */
  ghost predicate ExcessInv(s: State) {
    s.online ==> if s.dirty then Excess(s) > 0 else Excess(s) == 0
  }

  /** Whatever happens in an epoch, the excess stays what it was at the start. */
  lemma ExcessStep(s: State, e: Event)
    requires Inv(s) && Enabled(s, e) && ExcessInv(s)
    ensures ExcessInv(Step(s, e))
  {
    hide EpochInv, OutcomeInv, MapInv, CountInv, RingInv, ListInv, CompleteStep, IssueStep, Ledger.Sum, StopEndStep,
         Charges;
    match e
    case Submit(r) => AcceptExcess(s, [r]);
    case Batch(rs, failed) => AcceptExcess(s, rs);
    case Issue =>
      IssueFrame(s);
      IssueExcess(s);
    case Complete => CompletePart(s);
    case StopEnd(_) => StopFrame(s);
    case Start => StartExcess(s);
    case _ =>
  }

  lemma CompletePart(s: State)
    requires Inv(s) && ExcessInv(s)
    ensures ExcessInv(CompleteStep(s))
  {
    hide EpochInv, OutcomeInv, MapInv, CountInv, ListInv, CompleteStep, RingInv, Excess;
    CompleteFrame(s);
    if s.online {
      CompleteExcess(s);
    }
  }

  lemma StartExcess(s: State)
    requires Inv(s)
    ensures s.conf.rngsz > 0 && ExcessInv(StartStep(s))
  {
    hide EpochInv, OutcomeInv, MapInv, CountInv, RingInv, LinkInv, HeadInv, ClearedRing, Linked;
    if |s.pend| > 0 {
      assert Charges(s.pend)[0] == s.pend[0].descNr > 0;
      Ledger.SumPositive(Charges(s.pend));
    }
  }

  lemma {:induction false} ExcessRun(s: State, es: seq<Event>)
    requires Inv(s) && Possible(s, es) && ExcessInv(s)
    ensures ExcessInv(Run(s, es))
    decreases |es|
  {
    hide EpochInv, OutcomeInv, MapInv, CountInv, RingInv, ListInv, ExcessInv, Step, Enabled;
    if |es| > 0 {
      ExcessStep(s, es[0]);
      StepKeeps(s, es[0]);
      ExcessRun(Step(s, es[0]), es[1..]);
    }
  }

  /** Charges equal what the hardware holds plus unpaid credit exactly in the epochs
      begun without charged requests; in the others they exceed it throughout. */
  lemma ConservationIff(s: State)
    requires Reachable(s) && s.online
    ensures Ledger.Sum(Charges(s.pend)) + PartialCharge(s) == (s.produced - s.consumed) + s.credit <==> !s.dirty
    ensures s.dirty ==> Ledger.Sum(Charges(s.pend)) + PartialCharge(s) > (s.produced - s.consumed) + s.credit
  {
    hide Run, Possible, Inv;
    var es :| Possible(Init(s.conf), es) && s == Run(Init(s.conf), es);
    InitInv(s.conf);
    ExcessRun(Init(s.conf), es);
  }

  /** A start begins such an epoch exactly when nothing is pending and the head of the
      work list is not issued in part. On top of pending requests it raises the drained
      flag all the same. */
  lemma StartBalancedIff(t: State)
    requires Reachable(t) && Enabled(t, Start)
    ensures t.conf.rngsz > 0
    ensures var u := StartStep(t);
            && (Ledger.Sum(Charges(u.pend)) + PartialCharge(u) == (u.produced - u.consumed) + u.credit
                <==> t.pend == [] && PartialCharge(t) == 0)
            && u.drained && u.pend == t.pend
  {
    hide Reachable, Inv, Ledger.Sum, Charges;
    ReachableInv(t);
    ConfIs(t);
    ReachableStep(t, Start);
    ConservationIff(StartStep(t));
  }

  lemma ConfIs(s: State)
    requires Inv(s)
    ensures ConfOk(s.conf)
  {
  }

  lemma {:induction false} NoneBlocking(cbs: seq<Cb>)
    ensures Blocking(cbs) == [] <==> forall i :: 0 <= i < |cbs| ==> cbs[i].req.callback
  {
    if |cbs| > 0 {
      NoneBlocking(cbs[..|cbs| - 1]);
      assert forall i :: 0 <= i < |cbs| - 1 ==> cbs[i] == cbs[..|cbs| - 1][i];
    }
  }

  /** Stopping a queue and starting it at once is safe exactly when no blocking request
      is linked at the stop. */
  lemma StopStartSoundIff(s: State, timedOut: bool)
    requires Reachable(s) && Enabled(s, StopEnd(timedOut))
    ensures ConfOk(s.conf)
    ensures Sound(StartStep(StopEndStep(s))) <==>
            forall i :: 0 <= i < |s.pend + s.work| ==> (s.pend + s.work)[i].req.callback
  {
    hide Reachable, Inv, Sound;
    var t := StopEndStep(s);
    ReachableStep(s, StopEnd(timedOut));
    ReachableInv(s);
    ConfIs(s);
    RestartSoundIff(t);
    NoneBlocking(s.pend);
    NoneBlocking(s.work);
    hide StopEndStep;
    StopIs(s);
    assert forall i :: 0 <= i < |s.pend| ==> (s.pend + s.work)[i] == s.pend[i];
    assert forall i :: 0 <= i < |s.work| ==> (s.pend + s.work)[|s.pend| + i] == s.work[i];
  }

  lemma QueuedBlocking(c: Conf) returns (s: State)
    requires ConfOk(c)
    ensures Reachable(s) && s.conf == c && Enabled(s, StopEnd(false))
    ensures s.pend == [] && s.work == [Waiting(false)] && |s.accepted| == 1 && s.outcomes == [] && s.stale == []
  {
    hide Reachable;
    var r := EmptyRequest(false);
    var s0 := Init(c);
    InitReachable(c);
    ReachableStep(s0, Start);
    var s1 := Step(s0, Start);
    ReachableStep(s1, Submit(r));
    var s2 := Step(s1, Submit(r));
    ReachableStep(s2, StopBegin);
    s := Step(s2, StopBegin);
  }

  /** A run that ends with the descriptors of a refused request about to be sent. */
  lemma RefusedThenIssued(c: Conf) returns (s: State)
    requires ConfOk(c)
    ensures Reachable(s) && s.conf == c && Haunts(s, Issue) && s.outcomes == [Refused()]
    ensures s.work == [Waiting(false)] && s.stale == [0]
  {
    hide Reachable, StopEndStep, Tell, Blocking, KeptIds;
    var s0 := QueuedBlocking(c);
    ReachableStep(s0, StopEnd(false));
    var s1 := StopEndStep(s0);
    OneRefused(s0, Waiting(false));
    ReachableStep(s1, Start);
    s := StartStep(s1);
  }

  lemma OneRefused(s: State, cb: Cb)
    requires s.pend == [] && s.work == [cb] && !cb.req.callback
    requires |s.accepted| == 1 && s.outcomes == [] && s.stale == []
    ensures var t := StopEndStep(s);
            && t.pend == [] && t.work == [cb] && t.stale == [0] && t.outcomes == [Refused()]
            && t.conf == s.conf && !t.online && !t.stopWait && t.produced == s.produced && t.published == s.published
  {
    hide StopEndStep, Tell, Blocking, KeptIds;
    StopIs(s);
    StopFrame(s);
    KeptUnfold([], []);
    KeptUnfold([cb], [0]);
    assert LinkedIds(s) == [0] && [] + [cb] == [cb] && [cb][..0] == [] && [0][..0] == [];
    TellFresh(BookOf(s), Flushed(1));
    assert [] + Flushed(1) == [Refused()];
  }
}
