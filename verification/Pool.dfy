// The pool of queue ids of the character device: a circular array guarded by one
// counting semaphore and two mutexes, one for takers and one for returners. Any
// number of threads run it, one shared access at a time.
module Pool {
  import opened Ring

  /** Where a thread stands between two accesses to the shared state. */
  datatype Phase =
    | Idle             // outside the driver, or waiting for the semaphore
    | Ready            // past the semaphore
    | Taking           // holds the take mutex
    | Read(q: nat)     // has read a slot, take index not moved yet
    | Moved(q: nat)    // has moved the take index, still holds the take mutex
    | Using(q: nat)    // transferring on queue q
    | Returning(q: nat) // holds the return mutex
    | Written(q: nat)  // has written a slot, return index not moved yet
    | Stepped          // has moved the return index, still holds the return mutex
    | Signalling       // has released it, semaphore not raised yet

  datatype Action =
    | Down | LockTake | ReadSlot | MoveRead | UnlockTake
    | Fail | LockReturn | WriteSlot | MoveWrite | UnlockReturn | Up

  /** `taken` and `returned` count index moves; `lost` holds ids whose transfer
      ended in an early error return, which gives nothing back. */
  datatype State = State(
    slots: seq<nat>, readIdx: nat, writeIdx: nat, sem: nat, takeFree: bool, returnFree: bool,
    threads: map<nat, Phase>, taken: nat, returned: nat, lost: set<nat>)

  function PhaseOf(s: State, t: nat): Phase {
    if t in s.threads then s.threads[t] else Idle
  }

  predicate Enabled(s: State, t: nat, a: Action) {
    var p := PhaseOf(s, t);
    match a
    case Down => p.Idle? && s.sem > 0
    case LockTake => p.Ready? && s.takeFree
    case ReadSlot => p.Taking? && s.readIdx < |s.slots|
    case MoveRead => p.Read? && |s.slots| > 0
    case UnlockTake => p.Moved?
    case Fail => p.Using?
    case LockReturn => p.Using? && s.returnFree
    case WriteSlot => p.Returning? && s.writeIdx < |s.slots|
    case MoveWrite => p.Written? && |s.slots| > 0
    case UnlockReturn => p.Stepped?
    case Up => p.Signalling?
  }

  function Step(s: State, t: nat, a: Action): (s': State)
    requires Enabled(s, t, a)
    ensures |s'.slots| == |s.slots|
  {
    var p := PhaseOf(s, t);
    match a
    case Down => s.(sem := s.sem - 1, threads := s.threads[t := Ready])
    case LockTake => s.(takeFree := false, threads := s.threads[t := Taking])
    case ReadSlot => s.(threads := s.threads[t := Read(s.slots[s.readIdx])])
    case MoveRead => s.(readIdx := (s.readIdx + 1) % |s.slots|, taken := s.taken + 1,
                        threads := s.threads[t := Moved(p.q)])
    case UnlockTake => s.(takeFree := true, threads := s.threads[t := Using(p.q)])
    case Fail => s.(lost := s.lost + {p.q}, threads := s.threads[t := Idle])
    case LockReturn => s.(returnFree := false, threads := s.threads[t := Returning(p.q)])
    case WriteSlot => s.(slots := s.slots[s.writeIdx := p.q], threads := s.threads[t := Written(p.q)])
    case MoveWrite => s.(writeIdx := (s.writeIdx + 1) % |s.slots|, returned := s.returned + 1,
                         threads := s.threads[t := Stepped])
    case UnlockReturn => s.(returnFree := true, threads := s.threads[t := Signalling])
    case Up => s.(sem := s.sem + 1, threads := s.threads[t := Idle])
  }

  // ------------------------------------------------------------ counting threads

  /** Claims on an unread slot: counted off the semaphore, not yet read past. */
  predicate Claims(p: Phase) {
    p.Ready? || p.Taking? || p.Read?
  }

  /** Owes the semaphore a signal for a slot already handed back. */
  predicate Owes(p: Phase) {
    p.Stepped? || p.Signalling?
  }

  /** Has a queue id to itself. */
  predicate Holds(p: Phase) {
    p.Moved? || p.Using? || p.Returning? || p.Written?
  }

  predicate InTake(p: Phase) {
    p.Taking? || p.Read? || p.Moved?
  }

  predicate InReturn(p: Phase) {
    p.Returning? || p.Written? || p.Stepped?
  }

  /** The three groups of threads that the counters keep track of. */
  datatype Group = Claimants | Debtors | Holders

  predicate Belongs(p: Phase, g: Group) {
    match g
    case Claimants => Claims(p)
    case Debtors => Owes(p)
    case Holders => Holds(p)
  }

  ghost function Those(threads: map<nat, Phase>, g: Group): set<nat> {
    set t | t in threads && Belongs(threads[t], g)
  }

  ghost function Count(threads: map<nat, Phase>, g: Group): nat {
    |Those(threads, g)|
  }

  lemma SetMove(before: set<nat>, after: set<nat>, t: nat, now: bool)
    requires forall u :: u != t ==> (u in after <==> u in before)
    requires t in after <==> now
    ensures |after| == |before| - (if t in before then 1 else 0) + (if now then 1 else 0)
  {
    var rest := before - {t};
    assert before == if t in before then rest + {t} else rest;
    assert after == if now then rest + {t} else rest;
  }

  /** Moving one thread changes each count by what that thread contributes. */
  lemma CountMove(s: State, t: nat, p: Phase, g: Group)
    ensures Count(s.threads[t := p], g)
         == Count(s.threads, g) - (if Belongs(PhaseOf(s, t), g) then 1 else 0) + (if Belongs(p, g) then 1 else 0)
  {
    var before, after := Those(s.threads, g), Those(s.threads[t := p], g);
    SetMove(before, after, t, Belongs(p, g));
  }

  lemma CountPositive(s: State, t: nat, g: Group)
    requires Belongs(PhaseOf(s, t), g)
    ensures Count(s.threads, g) > 0
  {
    assert t in Those(s.threads, g);
  }

  // ------------------------------------------------------------ invariant

  /** Id at the free-running position `p` of the circular array. */
  function IdAt(s: State, p: nat): nat
    requires |s.slots| > 0
  {
    s.slots[Slot(p, |s.slots|)]
  }

  /** Free-running positions whose id is free: returned and not yet taken. */
  predicate Unread(s: State, p: nat) {
    s.taken <= p < s.returned + |s.slots|
  }

  ghost predicate CountInv(s: State) {
    && |s.slots| > 0
    && s.readIdx == Slot(s.taken, |s.slots|) && s.writeIdx == Slot(s.returned, |s.slots|)
    && s.sem + Count(s.threads, Claimants) + Count(s.threads, Debtors) + s.taken == |s.slots| + s.returned
    && Count(s.threads, Holders) + |s.lost| + s.returned == s.taken
  }

  /** At most one thread is inside each mutex. */
  ghost predicate MutexInv(s: State) {
    && (forall t :: InTake(PhaseOf(s, t)) ==> !s.takeFree)
    && (forall t, u :: InTake(PhaseOf(s, t)) && InTake(PhaseOf(s, u)) ==> t == u)
    && (forall t :: InReturn(PhaseOf(s, t)) ==> !s.returnFree)
    && (forall t, u :: InReturn(PhaseOf(s, t)) && InReturn(PhaseOf(s, u)) ==> t == u)
  }

  ghost predicate ReadInv(s: State)
    requires |s.slots| > 0
  {
    && (forall t :: PhaseOf(s, t).Read? ==> PhaseOf(s, t).q == IdAt(s, s.taken))
    && (forall t :: PhaseOf(s, t).Written? ==> PhaseOf(s, t).q == IdAt(s, s.returned))
  }

  /** Free, held and lost ids are pairwise different. */
  ghost predicate DistinctInv(s: State)
    requires |s.slots| > 0
  {
    && (forall p, p' :: Unread(s, p) && Unread(s, p') && p != p' ==> IdAt(s, p) != IdAt(s, p'))
    && (forall p, t :: Unread(s, p) && Holds(PhaseOf(s, t)) ==> IdAt(s, p) != PhaseOf(s, t).q)
    && (forall t, u :: Holds(PhaseOf(s, t)) && Holds(PhaseOf(s, u)) && t != u ==> PhaseOf(s, t).q != PhaseOf(s, u).q)
    && (forall p :: Unread(s, p) ==> IdAt(s, p) !in s.lost)
    && (forall t :: Holds(PhaseOf(s, t)) ==> PhaseOf(s, t).q !in s.lost)
  }

  ghost predicate Free(s: State, q: nat)
    requires |s.slots| > 0
  {
    exists p :: Unread(s, p) && IdAt(s, p) == q
  }

  ghost predicate Held(s: State, q: nat) {
    exists t :: Holds(PhaseOf(s, t)) && PhaseOf(s, t).q == q
  }

  /** Exactly the ids below the pool size are free, held or lost. */
  ghost predicate CoverInv(s: State)
    requires |s.slots| > 0
  {
    forall q: nat :: q < |s.slots| <==> Free(s, q) || Held(s, q) || q in s.lost
  }

  ghost predicate Inv(s: State) {
    CountInv(s) && MutexInv(s) && ReadInv(s) && DistinctInv(s) && CoverInv(s)
  }

  /** The pool as the device initialises it. */
  function Init(n: nat): State {
    State(seq(n, i => i), 0, 0, n, true, true, map[], 0, 0, {})
  }

  /** The loop that fills the array when the device is opened. */
  method FillPool(pool: array<nat>)
    modifies pool
    ensures pool[..] == Init(pool.Length).slots
    ensures forall j :: 0 <= j < pool.Length ==> pool[j] == j
  {
    var i := 0;
    while i < pool.Length
      invariant 0 <= i <= pool.Length
      invariant forall j :: 0 <= j < i ==> pool[j] == j
    {
      pool[i] := i;
      i := i + 1;
    }
  }

  lemma InitInv(n: nat)
    requires n > 0
    ensures Inv(Init(n))
  {
    var s := Init(n);
    assert Those(s.threads, Claimants) == {} && Those(s.threads, Debtors) == {} && Those(s.threads, Holders) == {};
    forall p | Unread(s, p)
      ensures IdAt(s, p) == p
    {
      SlotStep(0, p, n);
    }
    forall q: nat | q < n
      ensures Free(s, q)
    {
      assert Unread(s, q) && IdAt(s, q) == q;
    }
  }

  // ------------------------------------------------------------ what the counts give

  /** A thread about to read is entitled to a slot that has been written. */
  lemma ReaderHasSlot(s: State, t: nat)
    requires CountInv(s) && Claims(PhaseOf(s, t))
    ensures Unread(s, s.taken)
  {
    CountPositive(s, t, Claimants);
  }

  /** A thread about to write returns into a slot that has been read past. */
  lemma WriterHasRoom(s: State, t: nat)
    requires CountInv(s) && Holds(PhaseOf(s, t))
    ensures s.returned < s.taken <= s.returned + |s.slots|
    ensures forall p :: Unread(s, p) ==> Slot(p, |s.slots|) != Slot(s.returned, |s.slots|)
  {
    CountPositive(s, t, Holders);
    forall p | Unread(s, p)
      ensures Slot(p, |s.slots|) != Slot(s.returned, |s.slots|)
    {
      SlotDistinct(s.returned, p, |s.slots|);
    }
  }

  // ------------------------------------------------------------ steps

  lemma StepCounts(s: State, t: nat, a: Action)
    requires CountInv(s) && ReadInv(s) && DistinctInv(s) && Enabled(s, t, a)
    ensures CountInv(Step(s, t, a))
  {
    hide Belongs, Count, Those, Slot;
    var p := PhaseOf(Step(s, t, a), t);
    CountMove(s, t, p, Claimants);
    CountMove(s, t, p, Debtors);
    CountMove(s, t, p, Holders);
    BelongsIs(p);
    BelongsIs(PhaseOf(s, t));
    StepIndices(s, t, a);
  }

  lemma StepIndices(s: State, t: nat, a: Action)
    requires |s.slots| > 0 && Enabled(s, t, a)
    requires s.readIdx == Slot(s.taken, |s.slots|) && s.writeIdx == Slot(s.returned, |s.slots|)
    ensures var u := Step(s, t, a);
            u.readIdx == Slot(u.taken, |s.slots|) && u.writeIdx == Slot(u.returned, |s.slots|)
  {
    hide Slot;
    SlotStep(s.taken, 1, |s.slots|);
    SlotStep(s.returned, 1, |s.slots|);
    NextIndex(s.readIdx, |s.slots|);
    NextIndex(s.writeIdx, |s.slots|);
  }

  lemma BelongsIs(p: Phase)
    ensures Belongs(p, Claimants) == Claims(p) && Belongs(p, Debtors) == Owes(p) && Belongs(p, Holders) == Holds(p)
  {
  }

  lemma NextIndex(i: nat, n: nat)
    requires i < n
    ensures (i + 1) % n == if i + 1 < n then i + 1 else 0
  {
  }

  lemma StepMutex(s: State, t: nat, a: Action)
    requires MutexInv(s) && Enabled(s, t, a)
    ensures MutexInv(Step(s, t, a))
  {
    var s' := Step(s, t, a);
    forall u
      ensures u != t ==> PhaseOf(s', u) == PhaseOf(s, u)
    {
    }
  }

  /** Writing a slot changes no free id. */
  lemma WriteSparesUnread(s: State, t: nat, p: nat)
    requires CountInv(s) && Enabled(s, t, WriteSlot) && Unread(s, p)
    ensures IdAt(Step(s, t, WriteSlot), p) == IdAt(s, p)
  {
    WriterHasRoom(s, t);
  }

  /** The position a returner is about to make free holds the id it returns. */
  lemma LapLater(s: State)
    requires CountInv(s)
    ensures IdAt(s, s.returned + |s.slots|) == IdAt(s, s.returned)
  {
    SlotStep(s.returned, |s.slots|, |s.slots|);
  }

  lemma StepReads(s: State, t: nat, a: Action)
    requires CountInv(s) && MutexInv(s) && ReadInv(s) && Enabled(s, t, a)
    ensures |Step(s, t, a).slots| > 0 && ReadInv(Step(s, t, a))
  {
    hide Belongs, Count, Those;
    var s' := Step(s, t, a);
    forall u
      ensures u != t ==> PhaseOf(s', u) == PhaseOf(s, u)
    {
    }
    if a.WriteSlot? {
      forall u | PhaseOf(s', u).Read?
        ensures PhaseOf(s', u).q == IdAt(s', s'.taken)
      {
        BelongsIs(PhaseOf(s, u));
        ReaderHasSlot(s, u);
        WriteSparesUnread(s, t, s.taken);
      }
    }
  }

  lemma MoveReadDistinct(s: State, t: nat)
    requires CountInv(s) && ReadInv(s) && DistinctInv(s) && Enabled(s, t, MoveRead)
    ensures DistinctInv(Step(s, t, MoveRead))
  {
    var s' := Step(s, t, MoveRead);
    ReaderHasSlot(s, t);
    assert forall p :: Unread(s', p) ==> Unread(s, p) && IdAt(s', p) == IdAt(s, p);
    assert forall u :: u != t ==> PhaseOf(s', u) == PhaseOf(s, u);
    assert IdAt(s, s.taken) == PhaseOf(s', t).q;
  }

  lemma WriteDistinct(s: State, t: nat)
    requires CountInv(s) && DistinctInv(s) && Enabled(s, t, WriteSlot)
    ensures DistinctInv(Step(s, t, WriteSlot))
  {
    var s' := Step(s, t, WriteSlot);
    forall p | Unread(s', p)
      ensures Unread(s, p) && IdAt(s', p) == IdAt(s, p)
    {
      WriteSparesUnread(s, t, p);
    }
    assert forall u :: u != t ==> PhaseOf(s', u) == PhaseOf(s, u);
    assert PhaseOf(s', t).q == PhaseOf(s, t).q;
    hide IdAt, CountInv;
  }

  lemma MoveWriteDistinct(s: State, t: nat)
    requires CountInv(s) && ReadInv(s) && DistinctInv(s) && Enabled(s, t, MoveWrite)
    ensures DistinctInv(Step(s, t, MoveWrite))
  {
    var s' := Step(s, t, MoveWrite);
    LapLater(s);
    var q := PhaseOf(s, t).q;
    forall p | Unread(s', p)
      ensures IdAt(s', p) == if p == s.returned + |s.slots| then q else IdAt(s, p)
      ensures p == s.returned + |s.slots| || Unread(s, p)
    {
    }
    assert forall u :: u != t ==> PhaseOf(s', u) == PhaseOf(s, u);
    hide IdAt;
  }

  lemma StepDistinct(s: State, t: nat, a: Action)
    requires CountInv(s) && ReadInv(s) && DistinctInv(s) && Enabled(s, t, a)
    ensures |Step(s, t, a).slots| > 0 && DistinctInv(Step(s, t, a))
  {
    hide Belongs, Count, Those;
    match a
    case MoveRead => MoveReadDistinct(s, t);
    case WriteSlot => WriteDistinct(s, t);
    case MoveWrite => MoveWriteDistinct(s, t);
    case _ => PlainDistinct(s, t, a);
  }

  lemma PlainDistinct(s: State, t: nat, a: Action)
    requires |s.slots| > 0 && DistinctInv(s) && Enabled(s, t, a)
    requires !a.MoveRead? && !a.WriteSlot? && !a.MoveWrite?
    ensures DistinctInv(Step(s, t, a))
  {
    var s' := Step(s, t, a);
    assert forall p :: Unread(s', p) ==> Unread(s, p) && IdAt(s', p) == IdAt(s, p);
    assert forall u :: u != t ==> PhaseOf(s', u) == PhaseOf(s, u);
  }

  // ------------------------------------------------------------ coverage

  /** Where an id went in one step: each id stays in one of the three places. */
  lemma StepCover(s: State, t: nat, a: Action)
    requires CountInv(s) && ReadInv(s) && CoverInv(s) && Enabled(s, t, a)
    ensures |Step(s, t, a).slots| > 0 && CoverInv(Step(s, t, a))
  {
    var s' := Step(s, t, a);
    forall q: nat
      ensures q < |s.slots| <==> Free(s', q) || Held(s', q) || q in s'.lost
    {
      Follows(s, t, a, q);
    }
  }

  ghost predicate Somewhere(s: State, q: nat)
    requires |s.slots| > 0
  {
    Free(s, q) || Held(s, q) || q in s.lost
  }

  lemma Follows(s: State, t: nat, a: Action, q: nat)
    requires CountInv(s) && ReadInv(s) && Enabled(s, t, a)
    ensures |Step(s, t, a).slots| > 0
    ensures Somewhere(s, q) <==> Somewhere(Step(s, t, a), q)
  {
    hide Belongs, Count, Those;
    match a
    case MoveRead => FollowsMoveRead(s, t, q);
    case WriteSlot => FollowsWrite(s, t, q);
    case MoveWrite => FollowsMoveWrite(s, t, q);
    case _ => FollowsPlain(s, t, a, q);
  }

  lemma HeldBy(s: State, t: nat, q: nat)
    requires Holds(PhaseOf(s, t)) && PhaseOf(s, t).q == q
    ensures Held(s, q)
  {
  }

  lemma FreeAt(s: State, p: nat, q: nat)
    requires |s.slots| > 0 && Unread(s, p) && IdAt(s, p) == q
    ensures Free(s, q)
  {
  }

  /** Threads other than `t` keep what they hold. */
  lemma HeldElsewhere(s: State, t: nat, a: Action, q: nat)
    requires Enabled(s, t, a)
    ensures var s' := Step(s, t, a);
            && (Held(s, q) ==> Held(s', q) || (Holds(PhaseOf(s, t)) && PhaseOf(s, t).q == q))
            && (Held(s', q) ==> Held(s, q) || (Holds(PhaseOf(s', t)) && PhaseOf(s', t).q == q))
  {
    var s' := Step(s, t, a);
    assert forall u :: u != t ==> PhaseOf(s', u) == PhaseOf(s, u);
    if Held(s, q) {
      var u :| Holds(PhaseOf(s, u)) && PhaseOf(s, u).q == q;
      if u != t { HeldBy(s', u, q); }
    }
    if Held(s', q) {
      var u :| Holds(PhaseOf(s', u)) && PhaseOf(s', u).q == q;
      if u != t { HeldBy(s, u, q); }
    }
  }

  lemma FollowsPlain(s: State, t: nat, a: Action, q: nat)
    requires |s.slots| > 0 && Enabled(s, t, a) && !a.MoveRead? && !a.WriteSlot? && !a.MoveWrite?
    ensures Somewhere(s, q) <==> Somewhere(Step(s, t, a), q)
  {
    var s' := Step(s, t, a);
    HeldElsewhere(s, t, a, q);
    assert forall p :: Unread(s', p) <==> Unread(s, p);
    assert forall p :: Unread(s, p) ==> IdAt(s', p) == IdAt(s, p);
    assert Free(s, q) <==> Free(s', q);
    if Holds(PhaseOf(s, t)) && !a.Fail? {
      HeldBy(s, t, PhaseOf(s, t).q);
      HeldBy(s', t, PhaseOf(s, t).q);
    } else if a.Fail? {
      HeldBy(s, t, PhaseOf(s, t).q);
    }
  }

  lemma FollowsMoveRead(s: State, t: nat, q: nat)
    requires CountInv(s) && ReadInv(s) && Enabled(s, t, MoveRead)
    ensures Somewhere(s, q) <==> Somewhere(Step(s, t, MoveRead), q)
  {
    hide Held, CountInv;
    var s' := Step(s, t, MoveRead);
    HeldElsewhere(s, t, MoveRead, q);
    ReaderHasSlot(s, t);
    var r := PhaseOf(s, t).q;
    assert PhaseOf(s', t) == Moved(r);
    HeldBy(s', t, r);
    FreeAt(s, s.taken, r);
    assert forall p :: Unread(s', p) <==> Unread(s, p) && p != s.taken;
    assert forall p :: Unread(s, p) ==> IdAt(s', p) == IdAt(s, p);
  }

  lemma FollowsWrite(s: State, t: nat, q: nat)
    requires CountInv(s) && Enabled(s, t, WriteSlot)
    ensures Somewhere(s, q) <==> Somewhere(Step(s, t, WriteSlot), q)
  {
    hide Held;
    var s' := Step(s, t, WriteSlot);
    HeldElsewhere(s, t, WriteSlot, q);
    HeldBy(s, t, PhaseOf(s, t).q);
    HeldBy(s', t, PhaseOf(s, t).q);
    forall p | Unread(s, p)
      ensures IdAt(s', p) == IdAt(s, p)
    {
      WriteSparesUnread(s, t, p);
    }
    assert forall p :: Unread(s', p) <==> Unread(s, p);
    assert Free(s, q) <==> Free(s', q) by { hide IdAt, CountInv; }
  }

  lemma FollowsMoveWrite(s: State, t: nat, q: nat)
    requires CountInv(s) && ReadInv(s) && Enabled(s, t, MoveWrite)
    ensures Somewhere(s, q) <==> Somewhere(Step(s, t, MoveWrite), q)
  {
    hide Held;
    var s' := Step(s, t, MoveWrite);
    HeldElsewhere(s, t, MoveWrite, q);
    HeldBy(s, t, PhaseOf(s, t).q);
    LapLater(s);
    BelongsIs(PhaseOf(s, t));
    WriterHasRoom(s, t);
    assert forall p :: IdAt(s', p) == IdAt(s, p);
    assert forall p :: Unread(s', p) <==> Unread(s, p) || p == s.returned + |s.slots|;
    FreeAt(s', s.returned + |s.slots|, PhaseOf(s, t).q);
  }

  lemma StepKeeps(s: State, t: nat, a: Action)
    requires Inv(s) && Enabled(s, t, a)
    ensures Inv(Step(s, t, a))
  {
    hide CountInv, MutexInv, ReadInv, DistinctInv, CoverInv, Step, Enabled;
    StepCounts(s, t, a);
    StepMutex(s, t, a);
    StepReads(s, t, a);
    StepDistinct(s, t, a);
    StepCover(s, t, a);
  }

  // ------------------------------------------------------------ runs

  datatype Move = Move(thread: nat, action: Action)

  ghost predicate Possible(s: State, ms: seq<Move>)
    decreases |ms|
  {
    |ms| == 0 || (Enabled(s, ms[0].thread, ms[0].action) && Possible(Step(s, ms[0].thread, ms[0].action), ms[1..]))
  }

  ghost function Run(s: State, ms: seq<Move>): (s': State)
    requires Possible(s, ms)
    ensures |s'.slots| == |s.slots|
    decreases |ms|
  {
    if |ms| == 0 then s else Run(Step(s, ms[0].thread, ms[0].action), ms[1..])
  }

  lemma {:induction false} RunKeeps(s: State, ms: seq<Move>)
    requires Inv(s) && Possible(s, ms)
    ensures Inv(Run(s, ms))
    decreases |ms|
  {
    hide Inv, Step, Enabled;
    if |ms| > 0 {
      StepKeeps(s, ms[0].thread, ms[0].action);
      RunKeeps(Step(s, ms[0].thread, ms[0].action), ms[1..]);
    }
  }

  /** States that any number of threads can bring a pool of `n` ids to. */
  ghost predicate Reachable(s: State) {
    |s.slots| > 0 && exists ms :: Possible(Init(|s.slots|), ms) && s == Run(Init(|s.slots|), ms)
  }

  lemma ReachableInv(s: State)
    requires Reachable(s)
    ensures Inv(s)
  {
    hide Inv;
    var n := |s.slots|;
    var ms :| Possible(Init(n), ms) && s == Run(Init(n), ms);
    InitInv(n);
    RunKeeps(Init(n), ms);
  }

  /** No two threads ever have the same queue id, and each id is a valid one. */
  lemma MutualExclusion(s: State, t: nat, u: nat)
    requires Reachable(s) && t != u && Holds(PhaseOf(s, t)) && Holds(PhaseOf(s, u))
    ensures PhaseOf(s, t).q != PhaseOf(s, u).q
    ensures PhaseOf(s, t).q < |s.slots|
  {
    ReachableInv(s);
    HeldBy(s, t, PhaseOf(s, t).q);
  }

  /** The two mutexes do not exclude each other, yet a take never reads the slot a
      return is writing, never reads a slot whose id was already taken, and a
      return never overwrites an id still free. */
  lemma SlotsNeverClash(s: State, t: nat, u: nat)
    requires Reachable(s)
    ensures Enabled(s, t, ReadSlot) ==> Unread(s, s.taken) && s.readIdx == Slot(s.taken, |s.slots|)
    ensures Enabled(s, u, WriteSlot) ==>
              forall p :: Unread(s, p) ==> Slot(p, |s.slots|) != s.writeIdx
    ensures Enabled(s, t, ReadSlot) && Enabled(s, u, WriteSlot) ==> s.readIdx != s.writeIdx
  {
    ReachableInv(s);
    hide Belongs, Count, Those;
    BelongsIs(PhaseOf(s, t));
    BelongsIs(PhaseOf(s, u));
    if Enabled(s, t, ReadSlot) {
      ReaderHasSlot(s, t);
    }
    if Enabled(s, u, WriteSlot) {
      WriterHasRoom(s, u);
    }
  }

  /** Free ids, held ids and lost ids partition the ids below the pool size. */
  lemma Conservation(s: State, q: nat)
    requires Reachable(s)
    ensures q < |s.slots| <==> Free(s, q) || Held(s, q) || q in s.lost
    ensures !(Free(s, q) && Held(s, q)) && !(Free(s, q) && q in s.lost) && !(Held(s, q) && q in s.lost)
  {
    ReachableInv(s);
  }

  ghost predicate Quiescent(s: State) {
    forall t :: PhaseOf(s, t) == Idle
  }

  /** Once all operations are over, the semaphore counts the ids not lost. It is
      back at the pool size exactly when no operation ended in an early return,
      and then the array is a permutation of the ids. */
  lemma QuiescentPool(s: State)
    requires Reachable(s) && Quiescent(s)
    ensures s.sem + |s.lost| == |s.slots|
    ensures s.sem == |s.slots| <==> s.lost == {}
    ensures s.lost == {} ==>
              && (forall i, j :: 0 <= i < j < |s.slots| ==> s.slots[i] != s.slots[j])
              && (forall q: nat :: q < |s.slots| <==> q in s.slots)
  {
    ReachableInv(s);
    NobodyCounts(s);
    assert s.lost == {} <==> |s.lost| == 0;
    if s.lost == {} {
      FullWindow(s);
    }
  }

  lemma NobodyCounts(s: State)
    requires Quiescent(s)
    ensures Count(s.threads, Claimants) == Count(s.threads, Debtors) == Count(s.threads, Holders) == 0
  {
    assert forall t :: t in s.threads ==> s.threads[t] == PhaseOf(s, t);
    assert Those(s.threads, Claimants) == {} && Those(s.threads, Debtors) == {} && Those(s.threads, Holders) == {};
  }

  /** With as many takes as returns, every slot is a free position. */
  lemma FullWindow(s: State)
    requires Inv(s) && Quiescent(s) && s.taken == s.returned && s.lost == {}
    ensures forall i, j :: 0 <= i < j < |s.slots| ==> s.slots[i] != s.slots[j]
    ensures forall q: nat :: q < |s.slots| <==> q in s.slots
  {
    var n := |s.slots|;
    forall i: nat | i < n
      ensures Unread(s, PositionOf(s, i)) && IdAt(s, PositionOf(s, i)) == s.slots[i]
    {
      SlotAt(s.taken, i, n);
    }
    forall i, j | 0 <= i < j < n
      ensures s.slots[i] != s.slots[j]
    {
      SlotAt(s.taken, i, n);
      SlotAt(s.taken, j, n);
    }
    forall i: nat | i < n
      ensures s.slots[i] < n
    {
      FreeAt(s, PositionOf(s, i), s.slots[i]);
    }
    forall q: nat | q < n
      ensures q in s.slots
    {
      assert Free(s, q);
      var p :| Unread(s, p) && IdAt(s, p) == q;
      assert s.slots[Slot(p, n)] == q;
    }
  }

  /** The free-running position, from `taken` on, that occupies slot `i`. */
  function PositionOf(s: State, i: nat): nat
    requires |s.slots| > 0 && i < |s.slots|
  {
    var at := Slot(s.taken, |s.slots|);
    s.taken + if i >= at then i - at else i + |s.slots| - at
  }

  lemma SlotAt(base: nat, i: nat, n: nat)
    requires i < n
    ensures var at := Slot(base, n);
            Slot(base + (if i >= at then i - at else i + n - at), n) == i
  {
    var at := Slot(base, n);
    SlotStep(base, if i >= at then i - at else i + n - at, n);
  }
}
