// What holds in every state a descriptor queue can reach, and over its runs.
module QueueRuns {
  import opened Scatter
  import opened Plan
  import opened Ring
  import opened QueueSpec
  import opened QueueInv
  import Ledger

  const EIO: int := 5

  /** A queue that has been added but never started. */
  ghost function Init(c: Conf): State {
    State(c, false, false, 0, 0, 0, 0, 0, 0, 0, [], [], [], false, 0, 0, 0, 0, 0, [], 0, false,
          [], [], [], [], [], 0, [])
  }

  ghost predicate Possible(s: State, es: seq<Event>)
    requires ConfOk(s.conf)
    decreases |es|
  {
    |es| == 0 || (Enabled(s, es[0]) && Possible(Step(s, es[0]), es[1..]))
  }

  ghost function Run(s: State, es: seq<Event>): (t: State)
    requires ConfOk(s.conf) && Possible(s, es)
    ensures t.conf == s.conf
    decreases |es|
  {
    if |es| == 0 then s else Run(Step(s, es[0]), es[1..])
  }

  ghost predicate Reachable(s: State) {
    ConfOk(s.conf) && exists es :: Possible(Init(s.conf), es) && s == Run(Init(s.conf), es)
  }

  lemma {:induction false} RunKeeps(s: State, es: seq<Event>)
    requires Inv(s) && Possible(s, es)
    ensures Inv(Run(s, es))
    decreases |es|
  {
    hide EpochInv, OutcomeInv, RingInv, ListInv, MapInv, CountInv, Enabled, Step;
    if |es| > 0 {
      StepKeeps(s, es[0]);
      RunKeeps(Step(s, es[0]), es[1..]);
    }
  }

  lemma ReachableInv(s: State)
    requires Reachable(s)
    ensures Inv(s)
  {
    hide Inv;
    var es :| Possible(Init(s.conf), es) && s == Run(Init(s.conf), es);
    InitInv(s.conf);
    RunKeeps(Init(s.conf), es);
  }

  lemma InitInv(c: Conf)
    requires ConfOk(c)
    ensures Inv(Init(c))
  {
  }

  /** The ledger of an epoch begun without charged requests. */
  lemma CleanEpoch(s: State)
    requires Reachable(s) && s.online && !s.dirty
    ensures RosterInv(s) && LedgerInv(s) && RingInv(s) && FlagDown(s)
  {
    ReachableInv(s);
    hide RosterInv, LedgerInv, ListInv, OutcomeInv, MapInv, FlagDown, RingInv;
  }

  lemma {:induction false} RunConcat(s: State, es: seq<Event>, fs: seq<Event>)
    requires ConfOk(s.conf) && Possible(s, es) && Possible(Run(s, es), fs)
    ensures Possible(s, es + fs) && Run(s, es + fs) == Run(Run(s, es), fs)
    decreases |es|
  {
    hide Enabled, Step;
    if |es| == 0 {
      assert es + fs == fs;
    } else {
      assert (es + fs)[1..] == es[1..] + fs;
      RunConcat(Step(s, es[0]), es[1..], fs);
    }
  }

  // ------------------------------------------------------------ traces

  /** `tr` leads from `s` to `t`. */
  ghost predicate Traced(s: State, tr: seq<Event>, t: State) {
    ConfOk(s.conf) && Possible(s, tr) && Run(s, tr) == t
  }

  lemma TraceNothing(s: State)
    requires ConfOk(s.conf)
    ensures Traced(s, [], s)
  {
  }

  lemma TraceOne(s: State, tr: seq<Event>, t: State, e: Event)
    requires Traced(s, tr, t) && Enabled(t, e)
    ensures Traced(s, tr + [e], Step(t, e))
  {
    hide Enabled, Step;
    var u := Step(t, e);
    assert Possible(u, [e][1..]) && Run(u, [e][1..]) == u;
    assert Possible(t, [e]) && Run(t, [e]) == u;
    RunConcat(s, tr, [e]);
  }

  lemma TraceJoin(s: State, tr: seq<Event>, t: State, more: seq<Event>, u: State)
    requires Traced(s, tr, t) && Traced(t, more, u)
    ensures Traced(s, tr + more, u)
  {
    hide Enabled, Step;
    RunConcat(s, tr, more);
  }

  lemma ReachableStep(s: State, e: Event)
    requires Reachable(s) && Enabled(s, e)
    ensures Reachable(Step(s, e))
  {
    hide Enabled, Step;
    var es :| Possible(Init(s.conf), es) && s == Run(Init(s.conf), es);
    var t := Step(s, e);
    assert Possible(t, [e][1..]) && Run(t, [e][1..]) == t;
    assert Possible(s, [e]) && Run(s, [e]) == t;
    RunConcat(Init(s.conf), es, [e]);
  }

  // ------------------------------------------------------------ credits

  /** Credits: what the pending requests and the partly issued one are charged
      for equals what the hardware holds plus the credit not yet paid out. */
  lemma CreditConservation(s: State)
    requires Reachable(s) && s.online && !s.dirty
    ensures Ledger.Sum(Charges(s.pend)) + PartialCharge(s) == (s.produced - s.consumed) + s.credit
    ensures s.avail == s.conf.rngsz - 1 - (s.produced - s.consumed)
  {
    CleanEpoch(s);
    hide Ledger.Balanced, Plans, Reachable, RosterInv;
    Ledger.Conservation(Plans(Roster(s), s.conf.keyhole), Retired(s), Charges(s.pend), PartialCharge(s),
      s.credit, s.consumed, Xfers(s.conf, s.log));
  }

  /** No stranded request: the oldest pending request always waits for a
      descriptor that the hardware has not returned, so once everything is
      returned nothing is pending. */
  lemma NoStrandedRequest(s: State)
    requires Reachable(s) && s.online && !s.dirty
    ensures |s.pend| > 0 ==> s.credit < s.pend[0].descNr && s.consumed < s.produced
    ensures s.pidx == s.cidx ==> |s.pend| == 0
  {
    hide Reachable, Plans, Xfers, RosterInv, Roster, Retired, FlagDown;
    CleanEpoch(s);
    RosterBounds(s);
    WrappedDiffTrue(s.consumed, s.produced, s.conf.rngsz);
    assert |s.pend| > 0 ==> s.pend[0].descNr == Charges(s.pend)[0];
    Ledger.Conservation(Plans(Roster(s), s.conf.keyhole), Retired(s), Charges(s.pend), PartialCharge(s),
      s.credit, s.consumed, Xfers(s.conf, s.log));
  }

  /** A pending request is issued up to its count, whatever happened to its queue. */
  lemma PendingIsIssued(s: State, i: nat)
    requires Reachable(s) && i < |s.pend|
    ensures s.pend[i].offset == s.pend[i].req.count
  {
    ReachableInv(s);
    hide LinkInv, HeadInv, Untouched, RingInv, OutcomeInv, MapInv, EpochInv;
  }

  // ------------------------------------------------------------ completion

  /** Done first time round, in an epoch begun without charged requests: while the queue is
      online everybody told anything is, afterwards those with status 0 are. */
  ghost predicate ToldDone(s: State, i: nat) {
    !s.dirty && s.epoch <= i < |s.outcomes| && (s.online || s.outcomes[i].status == 0)
  }

  /** No early completion: a request reported done in this epoch has had every
      one of its descriptors returned by the hardware. Those descriptors are one
      stretch of the log and, whatever ring space allowed when they were issued,
      they are exactly the transfers of the request. */
  lemma NoEarlyCompletion(s: State, i: nat)
    requires Reachable(s) && ToldDone(s, i)
    ensures |s.outcomes| <= |s.accepted| && WellFormed(s.accepted[i], s.conf.keyhole)
    ensures s.outcomes[i] == Outcome(s.accepted[i].count, 0)
    ensures var at, xs := LogStart(s, i), Whole(s.accepted[i], s.conf.keyhole);
            && at + |xs| == LogStart(s, i + 1) <= s.consumed <= s.hardware <= |s.log|
            && Xfers(s.conf, s.log)[at..at + |xs|] == xs
  {
    hide Reachable, LogStart, Whole, WellFormed, Xfers, PlanOf;
    DoneFacts(s, i);
    PlanIsWhole(s.accepted[i], s.conf.keyhole);
  }

  /** The same of requests carried over by the start, when told again: each retired
      request of the epoch has had its descriptors returned, in the order of the roster. */
  lemma RetiredIsReturned(s: State, q: nat)
    requires Reachable(s) && s.online && !s.dirty
    requires RosterInv(s) && q < Retired(s)
    ensures var at, plan := |Ledger.Join(Plans(Roster(s)[..q], s.conf.keyhole))|, PlanOf(Roster(s)[q], s.conf.keyhole);
            && at + |plan| <= s.consumed <= |s.log| && Xfers(s.conf, s.log)[at..at + |plan|] == plan
  {
    hide Reachable, LedgerInv, Ledger.Join, Plans, Xfers, PlanOf;
    CleanEpoch(s);
    RosterDone(s, q);
  }

  lemma PlanIsWhole(r: Request, k: nat)
    requires WellFormed(r, k)
    ensures r.count == Total(r.sgl) && PlanOf(r, k) == Whole(r, k)
  {
  }

  lemma DoneFacts(s: State, i: nat)
    requires Reachable(s) && ToldDone(s, i)
    ensures |s.outcomes| <= |s.accepted| && WellFormed(s.accepted[i], s.conf.keyhole)
    ensures s.outcomes[i] == Outcome(s.accepted[i].count, 0)
    ensures s.consumed <= s.hardware <= |s.log| && DoneAt(s, i)
  {
    ReachableInv(s);
    hide ListInv, CountInv, LedgerInv, RosterInv, DoneAt, WellFormed, Addressed;
    if s.online {
      LedgerDone(s);
    }
    assert Tellable(s.outcomes[i], s.accepted[i]);
    assert s.ring == [] ==> s.epoch == |s.outcomes|;
  }

  /** What the hardware does for a list of descriptors: for each byte in turn, the
      address it is read from and the address it is written to. */
  function Copies(ds: seq<Desc>): seq<(nat, nat)> {
    if |ds| == 0 then []
    else
      var d := ds[|ds| - 1];
      Copies(ds[..|ds| - 1]) + seq(d.len, j => (d.src + j, d.dst + j))
  }

  /** The copy that byte `b` of a request asks for on a queue of this direction: from
      device to bus memory on a C2H queue, the other way on an H2C queue. */
  function Asked(c: Conf, r: Request, b: nat): (nat, nat)
    requires b < Total(r.sgl)
  {
    if c.c2h then (DevAddr(r, c.keyhole, b), HostAddr(r.sgl, b)) else (HostAddr(r.sgl, b), DevAddr(r, c.keyhole, b))
  }

  lemma {:induction false} CopiesAre(c: Conf, ds: seq<Desc>)
    ensures |Copies(ds)| == |Moves(Xfers(c, ds))|
    ensures forall b :: 0 <= b < |Copies(ds)| ==>
              var (host, dev) := Moves(Xfers(c, ds))[b];
              Copies(ds)[b] == if c.c2h then (dev, host) else (host, dev)
  {
    hide Moves;
    MovesUnfold(Xfers(c, ds));
    if |ds| > 0 {
      var n := |ds| - 1;
      CopiesAre(c, ds[..n]);
      assert Xfers(c, ds)[..n] == Xfers(c, ds[..n]);
      var x := Xfers(c, ds)[n];
      assert x == XferOf(c, ds[n]);
    }
  }

  /** A request reported done with its whole count has had byte 0, 1, ... copied once
      each between its own bus address and its own device address, in the direction of
      the queue. Unless a batch said that its buffers could not be mapped, these bus
      addresses are real. */
  lemma DoneMeansMoved(s: State, i: nat)
    requires Reachable(s) && ToldDone(s, i)
    ensures |s.outcomes| <= |s.accepted| == |s.mapFailed| && WellFormed(s.accepted[i], s.conf.keyhole)
    ensures !s.mapFailed[i] ==> Addressed(s.accepted[i])
    ensures LogStart(s, i) <= LogStart(s, i + 1) <= |s.log|
    ensures var r, copies := s.accepted[i], Copies(s.log[LogStart(s, i)..LogStart(s, i + 1)]);
            && s.outcomes[i].bytes == |copies| == r.count == Total(r.sgl)
            && forall b :: 0 <= b < r.count ==> copies[b] == Asked(s.conf, r, b)
  {
    hide LogStart, Copies, Reachable, Asked, DoneAt, WellFormed, Addressed;
    DoneFacts(s, i);
    MapFacts(s, i);
    DoneAtMoves(s, i);
  }

  /** The stretch of the log of a done request copies its bytes, once each and in order. */
  lemma DoneAtMoves(s: State, i: nat)
    requires s.epoch <= i < |s.accepted| && WellFormed(s.accepted[i], s.conf.keyhole) && DoneAt(s, i)
    ensures s.accepted[i].count == Total(s.accepted[i].sgl)
    ensures LogStart(s, i) <= LogStart(s, i + 1) <= |s.log|
    ensures var r, copies := s.accepted[i], Copies(s.log[LogStart(s, i)..LogStart(s, i + 1)]);
            && |copies| == r.count
            && forall b :: 0 <= b < r.count ==> copies[b] == Asked(s.conf, r, b)
  {
    hide LogStart, Moves, Copies, HostAddr, DevAddr, Whole;
    PlanIsWhole(s.accepted[i], s.conf.keyhole);
    WholeCovers(s.accepted[i], s.conf.keyhole);
    var from, to := LogStart(s, i), LogStart(s, i + 1);
    assert Xfers(s.conf, s.log)[from..to] == Xfers(s.conf, s.log[from..to]);
    CopiesAre(s.conf, s.log[from..to]);
  }

  lemma MapFacts(s: State, i: nat)
    requires Reachable(s) && i < |s.accepted|
    ensures |s.mapFailed| == |s.accepted|
    ensures if s.mapFailed[i] then s.accepted[i].callback else Addressed(s.accepted[i])
  {
    ReachableInv(s);
    hide ListInv, OutcomeInv, RingInv, EpochInv, WellFormed, Addressed;
  }

  /** Requests retire in the order they were accepted: all requests before a
      retired one in this epoch are retired, and their descriptors come first. */
  lemma RetiredInOrder(s: State, i: nat, j: nat)
    requires Reachable(s) && s.online && s.epoch <= i < j && ToldDone(s, j)
    ensures s.epoch <= i + 1 <= j <= |s.accepted| && LogStart(s, i + 1) <= LogStart(s, j)
    ensures ToldDone(s, i)
    decreases j
  {
    hide Reachable, LogStart, Whole, Xfers, WellFormed;
    NoEarlyCompletion(s, i);
    NoEarlyCompletion(s, j);
    if i + 1 < j {
      RetiredInOrder(s, i, j - 1);
      NoEarlyCompletion(s, j - 1);
    }
  }

  // ------------------------------------------------------------ outcomes

  function CountAgain(again: seq<Again>, i: nat): nat {
    if |again| == 0 then 0
    else CountAgain(again[..|again| - 1], i) + if again[|again| - 1].id == i then 1 else 0
  }

  /** How often accepted request `i` was told an outcome. */
  ghost function TimesTold(s: State, i: nat): nat {
    (if i < |s.outcomes| then 1 else 0) + CountAgain(s.again, i)
  }

  /** How often its callback has run. */
  ghost function Calls(s: State, i: nat): nat
    requires i < |s.mapFailed|
  {
    (if s.mapFailed[i] then 1 else 0) + TimesTold(s, i)
  }

  lemma {:induction false} CountAgainZero(again: seq<Again>, i: nat)
    ensures CountAgain(again, i) == 0 <==> forall a :: a in again ==> a.id != i
  {
    if |again| > 0 {
      var n := |again| - 1;
      CountAgainZero(again[..n], i);
      assert again == again[..n] + [again[n]];
    }
  }

  /** Over every run, restarts and interrupts on stopped queues included: a request
      with a callback is told at most one outcome, and exactly one once its queue is
      stopped, so its callback ran exactly once unless a batch had already run it for
      an unmappable buffer. Only a blocking request refused by a stop is ever told
      more. */
  lemma ExactlyOneOutcome(s: State, i: nat)
    requires Reachable(s) && i < |s.accepted|
    ensures |s.outcomes| <= |s.accepted| == |s.mapFailed|
    ensures i < |s.outcomes| ==> Tellable(s.outcomes[i], s.accepted[i])
    ensures !s.online ==> |s.outcomes| == |s.accepted|
    ensures s.accepted[i].callback ==> TimesTold(s, i) == if i < |s.outcomes| then 1 else 0
    ensures s.accepted[i].callback && !s.online ==> (Calls(s, i) == 1 <==> !s.mapFailed[i])
    ensures TimesTold(s, i) > 1 ==> i < |s.outcomes| && !s.accepted[i].callback && s.outcomes[i] == Refused()
  {
    ReachableInv(s);
    hide ListInv, RingInv, EpochInv;
    CountAgainZero(s.again, i);
    if a :| a in s.again && a.id == i {
      assert Haunting(BookOf(s), s.accepted, a.id);
    }
  }

  /** What a blocked submitter returns for an outcome it is woken with: its byte
      offset, or -EIO. */
  function BlockedReturn(o: Outcome): int {
    if o.status != 0 then -EIO else o.bytes
  }

  ghost predicate WasTold(s: State, i: nat, o: Outcome) {
    (i < |s.outcomes| && s.outcomes[i] == o) || Again(i, o) in s.again
  }

  /** Whichever outcome a blocked submitter reads, it returns its whole count or an
      error, never a part, and an error only when a stop refused it. */
  lemma BlockedReturnsCount(s: State, i: nat, o: Outcome)
    requires Reachable(s) && WasTold(s, i, o)
    ensures i < |s.accepted| && i < |s.outcomes|
    ensures BlockedReturn(o) == if o == Refused() then -EIO else s.accepted[i].count
    ensures s.online && s.epoch <= i ==> BlockedReturn(o) == s.accepted[i].count
  {
    hide ListInv, RingInv, EpochInv, MapInv;
    ReachableInv(s);
    if Again(i, o) in s.again {
      assert Haunting(BookOf(s), s.accepted, i);
    }
  }

  /** Every outcome told is the whole count or a refusal, and a second one is told only
      after a refusal. */
  lemma ToldWhat(s: State, i: nat, o: Outcome)
    requires Reachable(s) && WasTold(s, i, o)
    ensures i < |s.outcomes| && i < |s.accepted| && Tellable(o, s.accepted[i])
    ensures o == s.outcomes[i] || s.outcomes[i] == Refused()
  {
    hide ListInv, RingInv, EpochInv, MapInv;
    ReachableInv(s);
    if Again(i, o) in s.again {
      assert Haunting(BookOf(s), s.accepted, i);
    }
  }

  lemma StepExtends(s: State, e: Event)
    requires ConfOk(s.conf) && Enabled(s, e)
    ensures s.accepted <= Step(s, e).accepted && s.outcomes <= Step(s, e).outcomes
    ensures s.mapFailed <= Step(s, e).mapFailed && s.again <= Step(s, e).again
  {
    hide IssueStep, CompleteStep, StopEndStep, WellFormed, Addressed, Linked, PartialCharge, Tell;
    match e
    case Issue => IssueFrame(s);
    case Complete => CompleteGrows(s);
    case StopEnd(_) => StopGrows(s);
    case _ =>
  }

  lemma CompleteGrows(s: State)
    ensures var t := CompleteStep(s);
            && s.accepted == t.accepted && s.outcomes <= t.outcomes && s.mapFailed == t.mapFailed && s.again <= t.again
  {
    hide Retire, DoneOutcomes;
  }

  lemma StopGrows(s: State)
    ensures var t := StopEndStep(s);
            && s.accepted == t.accepted && s.outcomes <= t.outcomes && s.mapFailed == t.mapFailed && s.again <= t.again
  {
    hide Blocking, KeptIds, LinkedIds, Flushed;
  }

  /** Acceptances and outcomes are never taken back or rewritten later. */
  lemma {:induction false} RunExtends(s: State, es: seq<Event>)
    requires ConfOk(s.conf) && Possible(s, es)
    ensures s.accepted <= Run(s, es).accepted && s.outcomes <= Run(s, es).outcomes
    ensures s.mapFailed <= Run(s, es).mapFailed && s.again <= Run(s, es).again
    decreases |es|
  {
    hide Step, Enabled;
    if |es| > 0 {
      StepExtends(s, es[0]);
      RunExtends(Step(s, es[0]), es[1..]);
    }
  }

  // ------------------------------------------------------------ ring ownership

  /** In every reachable state the slots the hardware owns hold what was logged
      for them, and the doorbell never runs ahead of filled slots. */
  lemma HardwareSeesTheLog(s: State, i: nat)
    requires Reachable(s) && s.ring != [] && s.hardware <= i < s.published
    ensures i < |s.log| && |s.ring| == s.conf.rngsz && s.ring[Slot(i, s.conf.rngsz)] == s.log[i]
    ensures s.doorbell == Slot(s.published, s.conf.rngsz) && s.published <= |s.log|
  {
    ReachableInv(s);
  }

  /** An issue pass writes no slot between the consumer and producer positions. */
  lemma IssueSparesOwnedSlots(s: State, i: nat)
    requires Reachable(s) && IssueEnabled(s) && s.consumed <= i < s.produced
    ensures IssueStep(s).ring[Slot(i, s.conf.rngsz)] == s.ring[Slot(i, s.conf.rngsz)]
  {
    ReachableInv(s);
    hide EpochInv, ListInv, OutcomeInv, MapInv, WriteRing, IssueXfers, PassDescs;
    IssueRing(s);
    assert IssueStep(s).log[i] == s.log[i];
  }

  /** A completion pass republishes an index; it is the one last published, even
      while newer descriptors sit unpublished in the ring, and even though a
      restart does not reset the software copy it is taken from. */
  lemma RepublishIsStale(s: State)
    requires Reachable(s) && s.ring != []
    ensures CompleteStep(s).doorbell == Slot(s.published, s.conf.rngsz)
    ensures CompleteStep(s).published == s.published
  {
    ReachableInv(s);
    hide EpochInv, ListInv, OutcomeInv, MapInv;
    CompleteRing(s);
  }

  // ------------------------------------------------------------ the drained flag

  /** The drained flag is raised at a lock release although a request is pending. */
  ghost predicate Misleading(s: State) {
    s.online && !s.dirty && Quiet(s) && s.drained && |s.pend| > 0
  }

  /** With a trustworthy configuration the drained flag means what it says:
      nothing is pending and the hardware holds no descriptor. */
  lemma DrainedMeansDrained(s: State)
    requires Reachable(s) && s.online && !s.dirty && Quiet(s) && s.drained && Trustworthy(s.conf)
    ensures |s.pend| == 0 && s.consumed == s.hardware == s.published == s.produced
  {
    ReachableInv(s);
    hide LedgerInv, RosterInv, ListInv, OutcomeInv, MapInv;
    NoStrandedRequest(s);
  }

  /** A stop that did not time out leaves the hardware nothing to touch in the
      ring it is about to free, and only requests not fully issued are refused. */
  lemma OrderlyStop(s: State)
    requires Reachable(s) && !s.dirty && Enabled(s, StopEnd(false)) && Trustworthy(s.conf)
    ensures s.hardware == s.produced && |s.pend| == 0
    ensures |s.stale| <= |s.work| && StopEndStep(s).outcomes == s.outcomes + Flushed(|s.work| - |s.stale|)
  {
    hide Reachable, Tell, KeptIds, LinkedIds, Blocking, EpochInv, MapInv, CountInv, RingInv, LinkInv, CbInv, BookInv;
    DrainedMeansDrained(s);
    ReachableInv(s);
    LinkSizes(s);
    StopBook(s);
  }

  ghost function EmptyRequest(callback: bool): (r: Request)
    ensures Total(r.sgl) == r.count == 0 && r.callback == callback
    ensures forall k: nat :: k < U32 ==> WellFormed(r, k)
    ensures Addressed(r)
  {
    assert Prefix([Sg(0, 0)], 1) == Prefix([Sg(0, 0)], 0);
    Request(0, 0, [Sg(0, 0)], callback)
  }

  ghost function Waiting(callback: bool): Cb {
    Cb(EmptyRequest(callback), 0, 0)
  }

  /** A started queue that has accepted two empty requests. */
  lemma TwoEmptyRequests(c: Conf, first: bool, second: bool) returns (s: State)
    requires ConfOk(c)
    ensures s.accepted == [EmptyRequest(first), EmptyRequest(second)] && s.epoch == 0 && s.carried == []
    ensures s.outcomes == [] && s.stale == [] && s.again == [] && s.published == 0 && s.log == []
    ensures Reachable(s) && s.conf == c && s.online && !s.dirty && !s.stopWait && Quiet(s)
    ensures s.work == [Waiting(first), Waiting(second)] && s.pend == [] && s.credit == 0
    ensures s.produced == s.consumed == s.hardware == 0 && s.avail == c.rngsz - 1
  {
    hide Reachable;
    var q, r := EmptyRequest(first), EmptyRequest(second);
    var s0 := Init(c);
    InitReachable(c);
    ReachableStep(s0, Start);
    var s1 := Step(s0, Start);
    ReachableStep(s1, Submit(q));
    var s2 := Step(s1, Submit(q));
    ReachableStep(s2, Submit(r));
    s := Step(s2, Submit(r));
  }

  lemma IssueEmpty(s: State, cb: Cb) returns (t: State)
    requires Reachable(s) && s.online && !s.stopWait && s.avail > 0
    requires |s.work| > 0 && s.work[0] == cb && cb.req.count == 0 && cb.offset == cb.descNr == 0
    ensures Reachable(t) && Enabled(s, Issue) && t == IssueStep(s)
    ensures t == s.(pidx := t.pidx, avail := s.avail - 1, ring := t.ring, work := s.work[1..],
                    pend := s.pend + [cb.(descNr := 1)], workReqPend := t.workReqPend,
                    produced := s.produced + 1, log := t.log)
  {
    hide EpochInv, OutcomeInv, CountInv, WriteRing, PassDescs, Reachable;
    ReachableInv(s);
    HeadRequest(s);
    assert IssueXfers(s)[..0] == [];
    ReachableStep(s, Issue);
    t := IssueStep(s);
  }

  /** With a packet handler the flag is raised when the first of two requests is
      returned, while the second still waits for the hardware. */
  lemma HandlerMisleads(c: Conf) returns (s: State)
    requires ConfOk(c) && !Trustworthy(c)
    ensures Reachable(s) && s.conf == c && Misleading(s) && s.hardware < s.produced
  {
    hide Reachable;
    var s3 := TwoEmptyRequests(c, true, true);
    var s4 := IssueEmpty(s3, Waiting(true));
    var s5 := IssueEmpty(s4, Waiting(true));
    assert s5.pend == [Cb(EmptyRequest(true), 0, 1), Cb(EmptyRequest(true), 0, 1)];
    ReachableStep(s5, Publish);
    var s6 := Step(s5, Publish);
    ReachableStep(s6, Hardware(1));
    var s7 := Step(s6, Hardware(1));
    ReachableStep(s7, Complete);
    s := Step(s7, Complete);
    HandlerPays(s7);
  }

  lemma HandlerPays(s: State)
    requires Reachable(s) && s.online && s.conf.pktHandler && s.credit == 0
    requires s.pend == [Cb(EmptyRequest(true), 0, 1), Cb(EmptyRequest(true), 0, 1)]
    requires s.hardware == s.consumed + 1
    ensures CompleteStep(s).drained && |CompleteStep(s).pend| == 1
  {
    ReachableInv(s);
    CompleteRing(s);
    hide Inv, RingInv, Tell;
    assert Charges(s.pend) == [1, 1];
    assert Ledger.Pay([1, 1], 1) == (1, [1, 1][1..], 0);
  }

  /** The drained flag can be trusted exactly when no c2h packet handler is set
      (or the ring has a single usable slot). */
  lemma DrainedFlagSoundIff(c: Conf)
    requires ConfOk(c)
    ensures Trustworthy(c) <==> forall s :: Reachable(s) && s.conf == c ==> !Misleading(s)
  {
    hide Reachable;
    if Trustworthy(c) {
      forall s | Reachable(s) && s.conf == c
        ensures !Misleading(s)
      {
        if Misleading(s) {
          DrainedMeansDrained(s);
        }
      }
    } else {
      var s := HandlerMisleads(c);
    }
  }

  /** The converse: an idle queue whose flag is down always has a partly issued head,
      and that head holds the credit in hand. */
  lemma FlagDownHead(s: State)
    requires Reachable(s) && s.online && !s.dirty && !s.drained && s.consumed == s.produced
    ensures |s.pend| == 0 && |s.work| > 0 && s.work[0].descNr == s.credit > 0
  {
    CleanEpoch(s);
    hide Reachable, LedgerInv, RosterInv;
    IdleCredit(s);
  }

  // ------------------------------------------------------------ waiting for a stop

  ghost predicate NoStop(es: seq<Event>) {
    forall i :: 0 <= i < |es| ==> !es[i].StopEnd?
  }

  /** A stop waits, the flag is down and nothing is pending. */
  ghost predicate Stuck(s: State) {
    s.online && s.stopWait && !s.drained && s.pend == [] && Quiet(s)
  }

  lemma StuckStep(s: State, e: Event)
    requires ConfOk(s.conf) && Stuck(s) && Enabled(s, e) && !e.StopEnd?
    ensures Stuck(Step(s, e))
  {
    hide IssueXfers, WriteRing, Tell;
    assert Charges([]) == [];
  }

  /** With nothing pending no pass retires anything, so the flag stays down: such a
      stop can end only by its timeout. */
  lemma {:induction false} StopStuck(s: State, es: seq<Event>)
    requires ConfOk(s.conf) && Stuck(s) && Possible(s, es) && NoStop(es)
    ensures Stuck(Run(s, es)) && !Enabled(Run(s, es), StopEnd(false))
    decreases |es|
  {
    if |es| > 0 {
      hide Step, Enabled, Stuck;
      StuckStep(s, es[0]);
      StopStuck(Step(s, es[0]), es[1..]);
    }
  }

  lemma TwoSteps(s: State, h: nat)
    requires ConfOk(s.conf) && (s.online || !s.conf.polling) && s.hardware + h <= s.published
    ensures Possible(s, [Hardware(h), Complete])
    ensures Run(s, [Hardware(h), Complete]) == CompleteStep(HardwareStep(s, h))
  {
    hide CompleteStep;
    var es, u := [Hardware(h), Complete], HardwareStep(s, h);
    assert es[1..] == [Complete] && [Complete][1..] == [];
    assert Possible(u, [Complete]) && Run(u, [Complete]) == CompleteStep(u);
  }

  lemma PassRetires(s: State)
    requires Reachable(s) && s.online && !s.dirty && Quiet(s) && |s.pend| > 0
    ensures s.hardware <= s.published == s.produced && s.consumed < s.produced
    ensures s.ring != [] && RingInv(s) && ListInv(s)
    ensures Retire(s.pend, s.credit + (s.produced - s.consumed)).0 == |s.pend|
  {
    CreditConservation(s);
    NoStrandedRequest(s);
    ReachableInv(s);
    hide Reachable, EpochInv, OutcomeInv, MapInv, CountInv;
    PositiveCharges(s);
    Ledger.PayAll(Charges(s.pend), s.credit + (s.produced - s.consumed));
  }

  /** Once the hardware has returned everything, one pass retires all that is pending
      and raises the flag. */
  lemma PassDrains(s: State)
    requires Reachable(s) && s.online && !s.dirty && Quiet(s) && |s.pend| > 0
    ensures s.hardware <= s.published && s.conf.rngsz > 0
    ensures var u := CompleteStep(HardwareStep(s, s.published - s.hardware));
            u.drained && u.online && u.stopWait == s.stopWait && Quiet(u)
  {
    PassRetires(s);
    hide Reachable, ListInv, Tell, CompleteStep, RingInv, Retire;
    PassRing(s);
    var t := HardwareStep(s, s.published - s.hardware);
    PassLists(s, t);
    hide HardwareStep;
    CompleteParts(t);
    CompleteRing(t);
    CompleteFrame(t);
    PassIdle(CompleteStep(t));
  }

  lemma PassRing(s: State)
    requires RingInv(s) && Quiet(s)
    ensures s.conf.rngsz > 0 && s.hardware <= s.published
    ensures RingInv(HardwareStep(s, s.published - s.hardware))
  {
    HardwareRing(s, s.published - s.hardware);
  }

  lemma PassLists(s: State, t: State)
    requires ListInv(s) && t == s.(hardware := t.hardware, writeback := t.writeback)
    ensures ListInv(t)
  {
    hide CbInv, LinkInv;
  }

  lemma PassIdle(s: State)
    requires RingInv(s) && s.consumed == s.produced
    ensures s.avail + 1 == s.conf.rngsz
  {
  }

  lemma PositiveCharges(s: State)
    requires ListInv(s)
    ensures forall i :: 0 <= i < |s.pend| ==> Charges(s.pend)[i] > 0
  {
  }

  /** A waiting stop can end before its timeout exactly when the flag is up already or
      something is pending. */
  lemma StopEndsIff(s: State)
    requires Reachable(s) && !s.dirty && s.online && s.stopWait && Quiet(s)
    ensures ConfOk(s.conf)
    ensures (exists es :: Possible(s, es) && NoStop(es) && Enabled(Run(s, es), StopEnd(false)))
            <==> s.drained || |s.pend| > 0
  {
    hide CompleteStep, HardwareStep, NoStop;
    if s.drained {
      NoStopInTwo(0);
      assert Possible(s, []) && Run(s, []) == s;
    } else if |s.pend| > 0 {
      PassDrains(s);
      var h := s.published - s.hardware;
      TwoSteps(s, h);
      NoStopInTwo(h);
      assert Enabled(Run(s, [Hardware(h), Complete]), StopEnd(false));
    } else if es :| Possible(s, es) && NoStop(es) && Enabled(Run(s, es), StopEnd(false)) {
      StopStuck(s, es);
    }
  }

  lemma NoStopInTwo(h: nat)
    ensures NoStop([Hardware(h), Complete]) && NoStop([])
  {
  }

  lemma QueuedTwoBytes() returns (s: State)
    ensures Reachable(s) && s.conf == Conf(2, 0, false, false, false) && !s.dirty && s.online && !s.stopWait
    ensures Quiet(s) && s.pend == [] && s.work == [Cb(TwoByteRequest(), 0, 0)] && s.avail == 1 && s.produced == 0
    ensures s.consumed == 0 && IssueEnabled(s)
  {
    hide Reachable;
    var c, r := Conf(2, 0, false, false, false), TwoByteRequest();
    var s0 := Init(c);
    InitReachable(c);
    ReachableStep(s0, Start);
    var s1 := Step(s0, Start);
    ReachableStep(s1, Submit(r));
    s := Step(s1, Submit(r));
    assert s.work == [Cb(r, 0, 0)];
  }

  lemma HalfIssued() returns (s: State)
    ensures Reachable(s) && !s.dirty && s.online && !s.stopWait && !s.drained && s.pend == [] && Quiet(s)
    ensures s.consumed < s.produced && s.work == [Cb(TwoByteRequest(), 1, 1)]
  {
    hide Reachable, TwoByteRequest, WriteRing, IssueXfers, IssueCount, IssueCb, PassDescs;
    var s2 := QueuedTwoBytes();
    FirstByte(s2, TwoByteRequest());
    ReachableStep(s2, Issue);
    var s3 := IssueStep(s2);
    ReachableStep(s3, Publish);
    s := PublishStep(s3);
  }

  /** A stop that hangs although the hardware still has work: the only request is partly
      issued, and the stop allows no more of it. */
  lemma StopHangs() returns (s: State)
    ensures Reachable(s) && !s.dirty && Stuck(s) && s.consumed < s.produced
    ensures |s.work| == 1 && 0 < s.work[0].offset < s.work[0].req.count
  {
    hide Reachable, TwoByteRequest;
    var s4 := HalfIssued();
    ReachableStep(s4, StopBegin);
    s := s4.(stopWait := true);
  }

  // ------------------------------------------------------------ batches

  /** In interrupt mode a completion pass issues more work only when the 32-bit count
      of queued requests is non-zero. Batches are not counted, nor are requests left
      linked over a restart, so it resumes exactly when the work list does not hold as
      many requests as joined it uncounted, up to a multiple of 2^32. */
  lemma InterruptResumesIff(s: State)
    requires Reachable(s)
    ensures s.workReqPend != 0 <==> |s.work| % U32 != s.uncounted % U32
  {
    hide Reachable, RingInv, ListInv, EpochInv, OutcomeInv, MapInv;
    ReachableInv(s);
    var w, u := |s.work|, s.uncounted;
    assert s.workReqPend == (w - u) % U32;
    assert w == w / U32 * U32 + w % U32 && u == u / U32 * U32 + u % U32;
    assert (w - u) % U32 == (w % U32 - u % U32) % U32;
  }

  ghost function TwoByteRequest(): (r: Request)
    ensures WellFormed(r, 0) && Addressed(r) && r.count == 2 && r.callback
    ensures |Whole(r, 0)| == 2 && Whole(r, 0)[0].len == 1
  {
    var r := Request(0, 2, [Sg(1, 0), Sg(1, 0)], true);
    assert Prefix(r.sgl, 1) == Prefix(r.sgl, 0) + 1 && Prefix(r.sgl, 2) == Prefix(r.sgl, 1) + 1;
    assert StepLen(r, 0, 0) == 1 && StepLen(r, 0, 1) == 1;
    assert From(r, 0, 2) == [];
    r
  }

  /** A batched request that does not fit the ring: after its first descriptor
      is returned the queue is idle, yet the count tells the interrupt service
      that there is nothing to do. */
  lemma BatchStrands() returns (s: State)
    ensures Reachable(s) && s.online && Quiet(s) && s.hardware == s.consumed == s.produced
    ensures s.avail > 0 && |s.work| == 1 && 0 < s.work[0].offset < s.work[0].req.count
    ensures s.workReqPend == 0
  {
    hide Reachable;
    var c, r := Conf(2, 0, false, false, false), TwoByteRequest();
    var s0 := Init(c);
    InitReachable(c);
    ReachableStep(s0, Start);
    var s1 := Step(s0, Start);
    ReachableStep(s1, Batch([r], [false]));
    var s2 := Step(s1, Batch([r], [false]));
    assert s2.work == [Cb(r, 0, 0)];
    FirstByte(s2, r);
    ReachableStep(s2, Issue);
    var s3 := Step(s2, Issue);
    hide WriteRing, IssueXfers;
    ReachableStep(s3, Publish);
    var s4 := Step(s3, Publish);
    ReachableStep(s4, Hardware(1));
    var s5 := Step(s4, Hardware(1));
    ReachableStep(s5, Complete);
    s := Step(s5, Complete);
    StrandedComplete(s5);
  }

  lemma StrandedComplete(s: State)
    requires Reachable(s) && s.online && s.pend == [] && s.hardware == s.consumed + 1
    ensures CompleteStep(s).pend == [] && CompleteStep(s).consumed == s.hardware
    ensures CompleteStep(s).avail == s.avail + 1
  {
    ReachableInv(s);
    CompleteRing(s);
    hide Inv, Tell;
    assert Charges(s.pend) == [];
  }

  lemma InitReachable(c: Conf)
    requires ConfOk(c)
    ensures Reachable(Init(c))
  {
    assert Possible(Init(c), []) && Run(Init(c), []) == Init(c);
  }

  lemma FirstByte(s: State, r: Request)
    requires IssueEnabled(s) && s.avail == 1 && s.conf.keyhole == 0
    requires r == TwoByteRequest() && s.work == [Cb(r, 0, 0)]
    ensures IssueCount(s) == 1 && IssueCb(s) == Cb(r, 1, 1)
  {
    var xs := IssueXfers(s);
    assert xs == [Whole(r, 0)[0]];
    assert SumLen(xs) == SumLen(xs[..0]) + xs[0].len;
  }
}
