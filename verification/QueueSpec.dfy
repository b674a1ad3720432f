// The memory-mapped descriptor queue as a state machine. Every event is one
// section of code that runs under the queue lock, or one move of the hardware.
module QueueSpec {
  import opened Scatter
  import opened Plan
  import opened Ring
  import Ledger

  const EINVAL: int := 22
  const ENXIO: int := 6

  /** `c2h` is the direction, `pktHandler` whether a c2h packet handler is set, and
      `polling` whether the driver polls for completions rather than being interrupted. */
  datatype Conf = Conf(rngsz: nat, keyhole: nat, c2h: bool, pktHandler: bool, polling: bool)

  ghost predicate ConfOk(c: Conf) {
    2 <= c.rngsz && c.keyhole < U32
  }

  datatype Desc = Desc(src: nat, dst: nat, len: nat, dv: bool, sop: bool, eop: bool)

  /** Bookkeeping kept inside a request: bytes issued, descriptors charged. */
  datatype Cb = Cb(req: Request, offset: nat, descNr: nat)

  /** What a request's callback (or its blocked submitter) is told. */
  datatype Outcome = Outcome(bytes: nat, status: int)

  /** An outcome told to a request that had been told one before. */
  datatype Again = Again(id: nat, outcome: Outcome)

  /** The queue. `produced`, `consumed`, `published` and `hardware` are the
      free-running counters behind the wrapped indices; `log` holds every
      descriptor produced since the queue was started.

      `accepted` lists every request ever accepted, and `outcomes` what each was told
      first, in order. `stale` names the requests at the front of the two lists that
      were told already, yet are still linked; what they are told later is in `again`.
      `carried` are the requests that were linked when the queue was last started, and
      `dirty` says that some of them were charged for descriptors then.
      `mapFailed` marks requests a batch had already called back because their buffers
      could not be mapped, `uncounted` how many requests joined the work list without
      being counted. */
  datatype State = State(
    conf: Conf, online: bool, stopWait: bool,
    pidx: nat, cidx: nat, avail: nat, credit: nat,
    pidxInfo: nat, doorbell: nat, writeback: nat,
    ring: seq<Desc>, work: seq<Cb>, pend: seq<Cb>, drained: bool, workReqPend: nat,
    produced: nat, consumed: nat, published: nat, hardware: nat,
    log: seq<Desc>, epoch: nat, dirty: bool, carried: seq<Request>, accepted: seq<Request>,
    outcomes: seq<Outcome>, stale: seq<nat>, again: seq<Again>, uncounted: nat, mapFailed: seq<bool>)

  datatype Event =
    | Submit(req: Request)
    | Batch(reqs: seq<Request>, failed: seq<bool>)
    | Hardware(n: nat)
    | Complete
    | Issue
    | Publish
    | StopBegin
    | StopEnd(timedOut: bool)
    | Start

  // ---------------------------------------------------------------- steps

  function MkDesc(c: Conf, x: Xfer, sop: bool, eop: bool): Desc {
    if c.c2h then Desc(x.dev, x.host, x.len, true, sop, eop)
    else Desc(x.host, x.dev, x.len, true, sop, eop)
  }

  /** The transfer a descriptor stands for. */
  function XferOf(c: Conf, d: Desc): Xfer {
    if c.c2h then Xfer(d.dst, d.src, d.len) else Xfer(d.src, d.dst, d.len)
  }

  function Xfers(c: Conf, ds: seq<Desc>): (xs: seq<Xfer>)
    ensures |xs| == |ds|
  {
    seq(|ds|, i requires 0 <= i < |ds| => XferOf(c, ds[i]))
  }

  /** Descriptors of one pass: the first opens it, the last closes it. */
  function PassDescs(c: Conf, xs: seq<Xfer>): (ds: seq<Desc>)
    ensures |ds| == |xs|
  {
    seq(|xs|, i requires 0 <= i < |xs| => MkDesc(c, xs[i], i == 0, i == |xs| - 1))
  }

  function Sum32(x: nat, d: int): nat {
    (x + d) % U32
  }

  function Fresh(rs: seq<Request>): (cbs: seq<Cb>)
    ensures |cbs| == |rs|
  {
    seq(|rs|, i requires 0 <= i < |rs| => Cb(rs[i], 0, 0))
  }

  function SubmitStep(s: State, r: Request): State {
    if !s.online then s
    else s.(work := s.work + Fresh([r]), workReqPend := Sum32(s.workReqPend, 1), accepted := s.accepted + [r],
             mapFailed := s.mapFailed + [false])
  }

  /** The batch entry point queues its requests without counting them, also
      those it has just called back with a mapping error. */
  function BatchStep(s: State, rs: seq<Request>, failed: seq<bool>): State {
    if !s.online then s
    else s.(work := s.work + Fresh(rs), accepted := s.accepted + rs, uncounted := s.uncounted + |rs|,
            mapFailed := s.mapFailed + failed)
  }

  function HardwareStep(s: State, n: nat): State
    requires s.conf.rngsz > 0
  {
    s.(hardware := s.hardware + n, writeback := Slot(s.hardware + n, s.conf.rngsz))
  }

  /** Descriptors each request of a list is charged for. */
  function Charges(cbs: seq<Cb>): (ns: seq<nat>)
    ensures |ns| == |cbs|
  {
    seq(|cbs|, i requires 0 <= i < |cbs| => cbs[i].descNr)
  }

  /** Pay `credit` to the pending requests, oldest first: how many are fully
      paid, what is left pending, and the credit left over. */
  function Retire(pend: seq<Cb>, credit: nat): (res: (nat, seq<Cb>, nat))
    ensures res.0 <= |pend| && |res.1| == |pend| - res.0
  {
    var (n, owed, c) := Ledger.Pay(Charges(pend), credit);
    (n, if |owed| == 0 then [] else [pend[n].(descNr := owed[0])] + pend[n + 1..], c)
  }

  /** A retired request is told its byte offset; a callback request that was
      not fully issued would be told so. */
  function DoneOutcome(cb: Cb): Outcome {
    Outcome(cb.offset, if cb.req.callback && cb.offset != cb.req.count then -EINVAL else 0)
  }

  function DoneOutcomes(cbs: seq<Cb>): (os: seq<Outcome>)
    ensures |os| == |cbs|
  {
    seq(|cbs|, i requires 0 <= i < |cbs| => DoneOutcome(cbs[i]))
  }

  // ---------------------------------------------------------------- telling

  /** Who was told what. */
  datatype Book = Book(outcomes: seq<Outcome>, stale: seq<nat>, again: seq<Again>)

  function BookOf(s: State): Book {
    Book(s.outcomes, s.stale, s.again)
  }

  /** The first `|os|` linked requests are told `os` and unlinked: for those told
      before it is once more, the others are told in the order they were accepted. */
  function Tell(b: Book, os: seq<Outcome>): Book {
    var k := Min(|os|, |b.stale|);
    Book(b.outcomes + os[k..], b.stale[k..], b.again + Agains(b.stale[..k], os[..k]))
  }

  function Agains(ids: seq<nat>, os: seq<Outcome>): (a: seq<Again>)
    requires |ids| == |os|
    ensures |a| == |ids|
  {
    seq(|ids|, j requires 0 <= j < |ids| => Again(ids[j], os[j]))
  }

  function DrainFlag(s: State, retired: nat, avail: nat): bool {
    if retired == 0 then s.drained else s.conf.pktHandler || avail + 1 == s.conf.rngsz
  }

  /** A completion pass: read the writeback index and pay what it released. */
  function CompleteStep(s: State): State {
    if s.pidx == s.cidx || s.writeback == s.cidx then s
    else
      var d := WrappedDiff(s.writeback, s.cidx, s.conf.rngsz);
      var cr := if d < 0 then 0 else d;
      var (n, rest, credit) := Retire(s.pend, s.credit + cr);
      var b := Tell(BookOf(s), DoneOutcomes(s.pend[..n]));
      s.(cidx := s.writeback, avail := s.avail + cr, credit := credit, pend := rest,
         drained := DrainFlag(s, n, s.avail + cr), doorbell := s.pidxInfo, consumed := s.consumed + cr,
         outcomes := b.outcomes, stale := b.stale, again := b.again)
  }

  /** Transfers the head of the work list still needs. */
  function Needed(cb: Cb, keyhole: nat): seq<Xfer>
    requires cb.req.count == Total(cb.req.sgl)
  {
    if cb.req.count == 0 then Whole(cb.req, keyhole) else From(cb.req, keyhole, cb.offset)
  }

  predicate IssueEnabled(s: State) {
    && s.online && !s.stopWait && |s.work| > 0 && s.avail > 0 && |s.ring| == s.conf.rngsz > 0
    && s.work[0].req.count == Total(s.work[0].req.sgl)
  }

  function IssueCount(s: State): (n: nat)
    requires IssueEnabled(s)
    ensures n <= s.avail
  {
    Min(s.avail, |Needed(s.work[0], s.conf.keyhole)|)
  }

  /** Transfers of one issue pass for the head of the work list. */
  function IssueXfers(s: State): (xs: seq<Xfer>)
    requires IssueEnabled(s)
    ensures |xs| == IssueCount(s)
  {
    Needed(s.work[0], s.conf.keyhole)[..IssueCount(s)]
  }

  function IssueCb(s: State): Cb
    requires IssueEnabled(s)
  {
    var cb := s.work[0];
    cb.(offset := cb.offset + SumLen(IssueXfers(s)), descNr := cb.descNr + IssueCount(s))
  }

  /** One issue pass: fill free slots for the head of the work list, and move
      it to the pending list once it is fully issued. */
  function IssueStep(s: State): State
    requires IssueEnabled(s)
  {
    var n, cb := IssueCount(s), IssueCb(s);
    var ds := PassDescs(s.conf, IssueXfers(s));
    var full := cb.offset >= cb.req.count;
    s.(pidx := Slot(s.pidx + n, s.conf.rngsz), avail := s.avail - n,
       ring := WriteRing(s.ring, s.pidx, ds),
       work := if full then s.work[1..] else [cb] + s.work[1..],
       pend := if full then s.pend + [cb] else s.pend,
       workReqPend := if full then Sum32(s.workReqPend, -1) else s.workReqPend,
       produced := s.produced + n, log := s.log + ds)
  }

  function PublishStep(s: State): State {
    s.(drained := false, pidxInfo := s.pidx, doorbell := s.pidx, published := s.produced)
  }

  /** Requests that stay linked because nobody can call them back. */
  function Blocking(cbs: seq<Cb>): seq<Cb> {
    if |cbs| == 0 then []
    else
      var n := |cbs| - 1;
      Blocking(cbs[..n]) + if cbs[n].req.callback then [] else [cbs[n]]
  }

  function Flushed(n: nat): seq<Outcome> {
    seq(n, i => Outcome(0, -ENXIO))
  }

  /** The requests on the two lists, oldest first. */
  function LinkedIds(s: State): seq<nat> {
    s.stale + seq(if |s.accepted| < |s.outcomes| then 0 else |s.accepted| - |s.outcomes|, i => |s.outcomes| + i)
  }

  /** Which of the linked requests stay linked. */
  function KeptIds(cbs: seq<Cb>, ids: seq<nat>): (kept: seq<nat>)
    ensures |ids| == |cbs| ==> |kept| == |Blocking(cbs)|
    decreases |cbs|
  {
    if |cbs| == 0 || |ids| != |cbs| then []
    else
      var n := |cbs| - 1;
      KeptIds(cbs[..n], ids[..n]) + if cbs[n].req.callback then [] else [ids[n]]
  }

  function StopEndStep(s: State): State {
    var b := Tell(BookOf(s), Flushed(|s.pend| + |s.work|));
    s.(online := false, stopWait := false, pend := Blocking(s.pend), work := Blocking(s.work),
       workReqPend := Sum32(s.workReqPend, |Blocking(s.work)| - |s.work|),
       outcomes := b.outcomes, again := b.again, stale := KeptIds(s.pend + s.work, LinkedIds(s)))
  }

  function ClearedRing(n: nat): (ring: seq<Desc>)
    ensures |ring| == n
  {
    seq(n, i => Desc(0, 0, 0, false, false, false))
  }

  function Requests(cbs: seq<Cb>): (rs: seq<Request>)
    ensures |rs| == |cbs|
  {
    seq(|cbs|, i requires 0 <= i < |cbs| => cbs[i].req)
  }

  function Linked(s: State): seq<Request> {
    Requests(s.pend) + Requests(s.work)
  }

  /** Descriptors charged to the partly issued request. */
  function PartialCharge(s: State): nat {
    if |s.work| > 0 then s.work[0].descNr else 0
  }

  /** A start clears the ring and its indices, and the count of queued requests. It
      leaves the lists and the software copy of the last published index alone. */
  function StartStep(s: State): State
    requires s.conf.rngsz > 0
  {
    s.(online := true, pidx := 0, cidx := 0, avail := s.conf.rngsz - 1, credit := 0,
       doorbell := 0, writeback := 0, ring := ClearedRing(s.conf.rngsz),
       drained := true, workReqPend := 0, produced := 0, consumed := 0, published := 0, hardware := 0,
       log := [], epoch := |s.outcomes|, dirty := |s.pend| > 0 || PartialCharge(s) > 0, carried := Linked(s),
       uncounted := |s.work|)
  }

  // ---------------------------------------------------------------- enabling

  /** Outside a lock section every produced descriptor has been published. */
  ghost predicate Quiet(s: State) {
    s.produced == s.published
  }

  /** What the batch entry point may be handed: buffers that were mapped have bus
      addresses, and only callback requests can be told that theirs were not. */
  ghost predicate BatchOk(rs: seq<Request>, failed: seq<bool>, keyhole: nat) {
    && |failed| == |rs| && AllWellFormed(rs, keyhole)
    && forall i :: 0 <= i < |rs| ==> if failed[i] then rs[i].callback else Addressed(rs[i])
  }

  /** A completion pass checks for no state: on an interrupt it also runs on a queue
      that has been stopped. */
  ghost predicate Enabled(s: State, e: Event) {
    match e
    case Submit(r) => Quiet(s) && WellFormed(r, s.conf.keyhole) && Addressed(r)
    case Batch(rs, failed) => Quiet(s) && BatchOk(rs, failed, s.conf.keyhole)
    case Hardware(n) => s.hardware + n <= s.published
    case Complete => s.online || !s.conf.polling
    case Issue => IssueEnabled(s)
    case Publish => s.online && s.published < s.produced
    case StopBegin => Quiet(s) && s.online
    case StopEnd(timedOut) => Quiet(s) && s.online && s.stopWait && (timedOut || s.drained)
    case Start => Quiet(s) && !s.online
  }

  ghost function Step(s: State, e: Event): (t: State)
    requires ConfOk(s.conf) && Enabled(s, e)
    ensures t.conf == s.conf
  {
    match e
    case Submit(r) => SubmitStep(s, r)
    case Batch(rs, failed) => BatchStep(s, rs, failed)
    case Hardware(n) => HardwareStep(s, n)
    case Complete => CompleteStep(s)
    case Issue => IssueStep(s)
    case Publish => PublishStep(s)
    case StopBegin => s.(stopWait := true)
    case StopEnd(_) => StopEndStep(s)
    case Start => StartStep(s)
  }

  // ---------------------------------------------------------------- invariant

  /** The transfers of each request of a list. */
  ghost function Plans(rs: seq<Request>, keyhole: nat): (ps: seq<seq<Xfer>>)
    ensures |ps| == |rs|
  {
    seq(|rs|, i requires 0 <= i < |rs| => PlanOf(rs[i], keyhole))
  }

  ghost function PlanOf(r: Request, keyhole: nat): seq<Xfer> {
    if WellFormed(r, keyhole) then Whole(r, keyhole) else []
  }

  ghost predicate AllWellFormed(rs: seq<Request>, keyhole: nat) {
    forall i :: 0 <= i < |rs| ==> WellFormed(rs[i], keyhole)
  }

  ghost predicate RingInv(s: State) {
    var n := s.conf.rngsz;
    && |s.ring| == n
    && s.consumed <= s.hardware <= s.published <= s.produced < s.consumed + n
    && s.avail + 1 + (s.produced - s.consumed) == n
    && s.pidx == Slot(s.produced, n) && s.cidx == Slot(s.consumed, n)
    && s.doorbell == Slot(s.published, n) && s.writeback == Slot(s.hardware, n)
    && (s.published > 0 ==> s.pidxInfo == s.doorbell)
    && |s.log| == s.produced
    && (forall i :: s.consumed <= i < s.produced ==> s.ring[Slot(i, n)] == s.log[i])
  }

  /** A queue without a ring has never been started. */
  ghost predicate NeverStarted(s: State) {
    && !s.online && s.pidx == s.cidx && s.produced == s.published == s.hardware == 0
    && s.pend == s.work == [] && s.epoch == |s.outcomes| == 0
  }

  /** The partly issued request: its byte offset is where its charge ends. */
  ghost predicate HeadInv(cb: Cb, keyhole: nat) {
    var plan := PlanOf(cb.req, keyhole);
    cb.descNr < |plan| && cb.offset == SumLen(plan[..cb.descNr])
  }

  ghost predicate Untouched(cbs: seq<Cb>) {
    forall i :: 0 <= i < |cbs| ==> cbs[i].offset == cbs[i].descNr == 0
  }

  ghost predicate FullyIssued(cbs: seq<Cb>) {
    forall i :: 0 <= i < |cbs| ==> cbs[i].offset == cbs[i].req.count
  }

  /** The linked requests are the stale ones, then those not told anything yet. */
  ghost predicate LinkInv(b: Book, accepted: seq<Request>, linked: seq<Request>) {
    && |b.stale| <= |linked| && |b.outcomes| <= |accepted|
    && linked[|b.stale|..] == accepted[|b.outcomes|..]
    && forall k :: 0 <= k < |b.stale| ==> b.stale[k] < |accepted| && accepted[b.stale[k]] == linked[k]
  }

  ghost predicate CbInv(pend: seq<Cb>, work: seq<Cb>, keyhole: nat) {
    && FullyIssued(pend) && (forall i :: 0 <= i < |pend| ==> pend[i].descNr > 0)
    && (|work| > 0 ==> HeadInv(work[0], keyhole) && Untouched(work[1..]))
  }

  ghost predicate ListInv(s: State) {
    && s.epoch <= |s.outcomes|
    && LinkInv(BookOf(s), s.accepted, Linked(s))
    && CbInv(s.pend, s.work, s.conf.keyhole)
  }

  /** The requests of this epoch in the order they are worked off: those carried over
      by its start, then those accepted since. */
  ghost function Roster(s: State): seq<Request>
    requires s.epoch <= |s.accepted|
  {
    s.carried + s.accepted[s.epoch..]
  }

  /** How many of them have been retired. */
  ghost function Retired(s: State): nat
    requires |s.stale| <= |s.carried| && s.epoch <= |s.outcomes|
  {
    |s.carried| - |s.stale| + (|s.outcomes| - s.epoch)
  }

  ghost predicate RosterInv(s: State) {
    && |s.stale| <= |s.carried| && s.epoch <= |s.outcomes| <= |s.accepted|
    && Retired(s) <= |Roster(s)| && Roster(s)[Retired(s)..] == Linked(s)
    && (s.stale == [] || |s.outcomes| == s.epoch)
  }

  ghost predicate LedgerInv(s: State)
    requires RosterInv(s)
  {
    Ledger.Balanced(Plans(Roster(s), s.conf.keyhole), Retired(s), Charges(s.pend), PartialCharge(s),
      s.credit, s.consumed, Xfers(s.conf, s.log))
  }

  /** Position in the log of the first descriptor of accepted request `i`. */
  ghost function LogStart(s: State, i: nat): nat
    requires s.epoch <= i <= |s.accepted|
  {
    |Ledger.Join(Plans(s.carried + s.accepted[s.epoch..i], s.conf.keyhole))|
  }

  /** Every descriptor of request `i` was returned by the hardware; together they are
      one stretch of the log and the transfers of the request. */
  ghost predicate DoneAt(s: State, i: nat)
    requires s.epoch <= i < |s.accepted|
  {
    var at, xs := LogStart(s, i), PlanOf(s.accepted[i], s.conf.keyhole);
    && at + |xs| == LogStart(s, i + 1) <= s.consumed <= |s.log|
    && Xfers(s.conf, s.log)[at..at + |xs|] == xs
  }

  /** Every request of this epoch told that it is done is done. */
  ghost predicate DoneInv(s: State) {
    |s.outcomes| <= |s.accepted| &&
    forall i :: s.epoch <= i < |s.outcomes| && s.outcomes[i].status == 0 ==> DoneAt(s, i)
  }

  function Refused(): Outcome {
    Outcome(0, -ENXIO)
  }

  /** What a request may be told: its whole count, or that it was refused. */
  predicate Tellable(o: Outcome, r: Request) {
    o == Outcome(r.count, 0) || o == Refused()
  }

  /** Only a blocking request that was refused first can be told a second time. */
  ghost predicate Haunting(b: Book, accepted: seq<Request>, id: nat) {
    id < |b.outcomes| <= |accepted| && !accepted[id].callback && b.outcomes[id] == Refused()
  }

  ghost predicate BookInv(b: Book, accepted: seq<Request>) {
    && |b.outcomes| <= |accepted|
    && (forall i :: 0 <= i < |b.outcomes| ==> Tellable(b.outcomes[i], accepted[i]))
    && (forall k :: 0 <= k < |b.stale| ==> Haunting(b, accepted, b.stale[k]))
    && (forall j, k :: 0 <= j < k < |b.stale| ==> b.stale[j] < b.stale[k])
    && (forall a :: a in b.again ==> Haunting(b, accepted, a.id) && Tellable(a.outcome, accepted[a.id]))
  }

  ghost predicate OutcomeInv(s: State) {
    && BookInv(BookOf(s), s.accepted)
    && (s.online ==> forall i :: s.epoch <= i < |s.outcomes| ==> s.outcomes[i] == Outcome(s.accepted[i].count, 0))
    && (!s.online ==> |s.outcomes| == |s.accepted| && !s.stopWait)
  }

  /** A batch told some of its requests that they could not be mapped. */
  ghost predicate MapInv(s: State) {
    && |s.mapFailed| == |s.accepted|
    && forall i :: 0 <= i < |s.accepted| ==>
         WellFormed(s.accepted[i], s.conf.keyhole)
         && if s.mapFailed[i] then s.accepted[i].callback else Addressed(s.accepted[i])
  }

  /** The drained flag can be trusted. */
  ghost predicate DrainSound(s: State) {
    s.drained ==> s.consumed == s.published
  }

  ghost predicate Trustworthy(c: Conf) {
    !c.pktHandler || c.rngsz == 2
  }

  /** On an idle queue with the flag down, the partly issued head holds the credit. */
  ghost predicate FlagDown(s: State) {
    !s.drained && s.consumed == s.produced ==> PartialCharge(s) > 0
  }

  ghost predicate CountInv(s: State) {
    s.workReqPend == Sum32(|s.work|, 0 - s.uncounted)
  }

  /** What only an epoch begun without charged requests keeps: the ledger is balanced. */
  ghost predicate EpochInv(s: State) {
    && s.epoch <= |s.outcomes| <= |s.accepted|
    && if s.online then RosterInv(s) && LedgerInv(s) && FlagDown(s) else DoneInv(s)
  }

  ghost predicate Inv(s: State) {
    && ConfOk(s.conf)
    && OutcomeInv(s) && MapInv(s) && ListInv(s) && CountInv(s)
    && (if s.ring == [] then NeverStarted(s) else RingInv(s))
    && (!s.dirty ==> EpochInv(s))
    && (s.online && Trustworthy(s.conf) ==> DrainSound(s))
  }
}
