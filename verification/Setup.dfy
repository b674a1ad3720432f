// Bring-up of the network driver's queues, and which hardware queue a queue id taken
// from the character device's pool reaches.
module Setup {
  import opened Scatter
  import opened Lifecycle
  import D = Device
  import Pool
  import Bits

  /** The first index that carries memory-mapped rather than network queues. */
  const NET_QUEUE: nat := 64

  /** One direction's table after bring-up: network queues below `a`, then
      memory-mapped ones from the fixed index up to `b`; nothing else is there. */
  ghost predicate Laid(d: Dev, t: QType, a: nat, b: nat)
    requires |d.table| == 3 * d.qmax
  {
    forall i :: 0 <= i < d.qmax ==>
      if i < a || NET_QUEUE <= i < b
      then At(d, t, i).state.Enabled? && At(d, t, i).st == (i < NET_QUEUE) && At(d, t, i).aperture == 0
      else !Present(At(d, t, i))
  }

  /** The queues of one direction are streaming below the fixed index, and
      memory-mapped from there on. */
  ghost predicate ModeByIndex(d: Dev, t: QType)
    requires |d.table| == 3 * d.qmax
  {
    forall i :: 0 <= i < d.qmax && Present(At(d, t, i)) ==> At(d, t, i).st == (i < NET_QUEUE)
  }

  ghost predicate NoCmpt(d: Dev)
    requires |d.table| == 3 * d.qmax
  {
    forall i :: 0 <= i < d.qmax ==> !Present(At(d, CMPT, i))
  }

  function Opposite(t: QType): QType {
    if t.H2C? then C2H else H2C
  }

  /** Where a table can take its next queue. */
  ghost predicate Ready(d: Dev, t: QType) {
    && |d.table| == 3 * d.qmax && Inv(d) && d.caps.st && d.caps.mm && !t.CMPT?
    && ModeByIndex(d, Opposite(t)) && NoCmpt(d)
  }

  /** The other tables hold what they held. */
  ghost predicate OthersSame(d: Dev, e: Dev, t: QType)
    requires |d.table| == |e.table| == 3 * d.qmax && e.qmax == d.qmax
  {
    forall u, i: nat :: u != t && i < d.qmax ==> At(e, u, i) == At(d, u, i)
  }

  /** During bring-up an add fails only for want of table space, or when the place
      is taken. */
  lemma AddAt(d: Dev, t: QType, q: nat)
    requires Ready(d, t)
    ensures var (d', rv) := AddStep(d, q, t, q < NET_QUEUE, 0);
            && (rv == 0 <==> q < d.qmax && !Present(At(d, t, q)))
            && (rv == 0 ==>
                  && Ready(d', t) && d'.qmax == d.qmax && OthersSame(d, d', t)
                  && forall i: nat :: i < d.qmax ==>
                       if i == q
                       then At(d', t, i).state.Enabled? && At(d', t, i).st == (q < NET_QUEUE)
                            && At(d', t, i).aperture == 0
                       else At(d', t, i) == At(d, t, i))
  {
    hide Inv, Usable, AddStep, RaiseCounts;
    D.Shape(d);
    AddKeeps(d, q, t, q < NET_QUEUE, 0);
    AddSucceedsIff(d, q, t, q < NET_QUEUE, 0);
    if q < d.qmax {
      var (d', rv) := AddStep(d, q, t, q < NET_QUEUE, 0);
      if rv == 0 {
        AddedEntry(d, q, t, q < NET_QUEUE);
        var e := At(d, t, q).(state := Enabled, st := q < NET_QUEUE, aperture := 0);
        assert forall u, i: nat :: i < d.qmax ==> At(d', u, i) == if u == t && i == q then e else At(d, u, i);
      }
    }
  }

  /** An add that succeeds writes its entry. */
  lemma AddedEntry(d: Dev, q: nat, t: QType, st: bool)
    requires |d.table| == 3 * d.qmax && q < d.qmax && AddStep(d, q, t, st, 0).1 == 0
    ensures var e := AddStep(d, q, t, st, 0).0;
            && e.qmax == d.qmax && e.caps == d.caps
            && e.table == d.table[Handle(d.qmax, t, q) := At(d, t, q).(state := Enabled, st := st, aperture := 0)]
  {
    hide Usable;
  }

  lemma NextNet(d: Dev, t: QType, q: nat)
    requires Ready(d, t) && Laid(d, t, q, NET_QUEUE)
    ensures var (d', rv) := AddStep(d, q, t, q < NET_QUEUE, 0);
            && (rv == 0 <==> q < d.qmax)
            && (rv == 0 ==> Ready(d', t) && d'.qmax == d.qmax && OthersSame(d, d', t) && Laid(d', t, q + 1, NET_QUEUE))
  {
    hide Ready, AddStep;
    AddAt(d, t, q);
  }

  lemma NextMm(d: Dev, t: QType, net: nat, q: nat)
    requires Ready(d, t) && Laid(d, t, net, q) && q >= NET_QUEUE
    ensures var (d', rv) := AddStep(d, q, t, q < NET_QUEUE, 0);
            && (rv == 0 <==> net <= q < d.qmax)
            && (rv == 0 ==> Ready(d', t) && d'.qmax == d.qmax && OthersSame(d, d', t) && Laid(d', t, net, q + 1))
  {
    hide Ready, AddStep;
    AddAt(d, t, q);
  }

  class Driver {
    const dev: D.Device
    const mmQueues: nat
    var baseRx: nat
    var baseTx: nat
    var mmC2h: nat
    var mmH2c: nat
    var activeRx: nat
    var activeTx: nat

    constructor (dev: D.Device, mmQueues: nat)
      ensures this.dev == dev && this.mmQueues == mmQueues
      ensures baseRx == baseTx == mmC2h == mmH2c == activeRx == activeTx == 0
    {
      this.dev, this.mmQueues := dev, mmQueues;
      baseRx, baseTx, mmC2h, mmH2c, activeRx, activeTx := 0, 0, 0, 0, 0, 0;
    }

    /** Add receive queue `q`; queue 0 gives the base handle, and the first
        memory-mapped one the base of the pool's handles. */
    method RxQueueAdd(q: nat) returns (rv: int)
      requires dev.Valid()
      modifies this`baseRx, this`mmC2h, this`activeRx, dev, dev.descqs
      ensures dev.Valid()
      ensures (dev.Model(), rv) == AddStep(old(dev.Model()), q, C2H, q < NET_QUEUE, 0)
      ensures activeRx == old(activeRx) + 1
      ensures baseRx == if rv == 0 && q == 0 then Handle(dev.qmax, C2H, 0) else old(baseRx)
      ensures mmC2h == if rv == 0 && q == NET_QUEUE then old(baseRx) + NET_QUEUE else old(mmC2h)
    {
      var hndl;
      rv, hndl := dev.QueueAdd(q, C2H, q < NET_QUEUE, 0);
      activeRx := activeRx + 1;
      if rv != 0 {
        return;
      }
      if q == 0 {
        baseRx := hndl.value;
      }
      if q == NET_QUEUE {
        mmC2h := baseRx + NET_QUEUE;
      }
    }

    /** Add `net` network queues from index 0, then the memory-mapped ones. */
    method RxQueueSetup(net: nat) returns (rv: int)
      requires Ready(dev.Model(), C2H) && Laid(dev.Model(), C2H, 0, NET_QUEUE)
      modifies this`baseRx, this`mmC2h, this`activeRx, dev, dev.descqs
      ensures dev.Valid()
      ensures rv == 0 <==> net <= dev.qmax && (mmQueues > 0 ==> net <= NET_QUEUE && NET_QUEUE + mmQueues <= dev.qmax)
      ensures rv == 0 ==> Ready(dev.Model(), C2H) && Laid(dev.Model(), C2H, net, NET_QUEUE + mmQueues)
                          && OthersSame(old(dev.Model()), dev.Model(), C2H)
                          && activeRx == old(activeRx) + net + mmQueues
      ensures rv == 0 ==> baseRx == if net > 0 then Handle(dev.qmax, C2H, 0) else old(baseRx)
      ensures rv == 0 && mmQueues > 0 ==>
                mmC2h == (if net > 0 then Handle(dev.qmax, C2H, 0) else old(baseRx)) + NET_QUEUE
    {
      hide Inv, AddStep;
      ghost var d := dev.Model();
      var q := 0;
      while q < net
        invariant 0 <= q <= net && q <= dev.qmax
        invariant Ready(dev.Model(), C2H) && Laid(dev.Model(), C2H, q, NET_QUEUE)
        invariant OthersSame(d, dev.Model(), C2H)
        invariant activeRx == old(activeRx) + q
        invariant baseRx == if q > 0 then Handle(dev.qmax, C2H, 0) else old(baseRx)
      {
        NextNet(dev.Model(), C2H, q);
        rv := RxQueueAdd(q);
        if rv != 0 {
          return;
        }
        q := q + 1;
      }
      q := NET_QUEUE;
      while q < NET_QUEUE + mmQueues
        invariant NET_QUEUE <= q <= NET_QUEUE + mmQueues
        invariant q > NET_QUEUE ==> net <= NET_QUEUE && q <= dev.qmax
        invariant Ready(dev.Model(), C2H) && Laid(dev.Model(), C2H, net, q)
        invariant OthersSame(d, dev.Model(), C2H)
        invariant activeRx == old(activeRx) + net + q - NET_QUEUE
        invariant baseRx == if net > 0 then Handle(dev.qmax, C2H, 0) else old(baseRx)
        invariant q > NET_QUEUE ==> mmC2h == baseRx + NET_QUEUE
      {
        NextMm(dev.Model(), C2H, net, q);
        rv := RxQueueAdd(q);
        if rv != 0 {
          return;
        }
        q := q + 1;
      }
      return 0;
    }

    /** Add the transmit queues, network and memory-mapped in one sweep of
        consecutive indices. */
    method TxQueueSetup(net: nat) returns (rv: int)
      requires Ready(dev.Model(), H2C) && Laid(dev.Model(), H2C, 0, NET_QUEUE)
      modifies this`baseTx, this`mmH2c, this`activeTx, dev, dev.descqs
      ensures dev.Valid()
      ensures rv == 0 <==> net + mmQueues <= dev.qmax
      ensures rv == 0 ==> Ready(dev.Model(), H2C) && Laid(dev.Model(), H2C, net + mmQueues, NET_QUEUE)
                          && OthersSame(old(dev.Model()), dev.Model(), H2C)
                          && activeTx == old(activeTx) + net + mmQueues
      ensures rv == 0 ==> baseTx == if net + mmQueues > 0 then Handle(dev.qmax, H2C, 0) else old(baseTx)
      ensures rv == 0 && net + mmQueues > NET_QUEUE ==> mmH2c == Handle(dev.qmax, H2C, 0) + NET_QUEUE
      ensures rv == 0 && net + mmQueues <= NET_QUEUE ==> mmH2c == old(mmH2c)
    {
      hide Inv, AddStep;
      ghost var d := dev.Model();
      var q := 0;
      while q < net + mmQueues
        invariant 0 <= q <= net + mmQueues && q <= dev.qmax
        invariant Ready(dev.Model(), H2C) && Laid(dev.Model(), H2C, q, NET_QUEUE)
        invariant OthersSame(d, dev.Model(), H2C)
        invariant activeTx == old(activeTx) + q
        invariant baseTx == if q > 0 then Handle(dev.qmax, H2C, 0) else old(baseTx)
        invariant mmH2c == if q > NET_QUEUE then Handle(dev.qmax, H2C, 0) + NET_QUEUE else old(mmH2c)
      {
        NextNet(dev.Model(), H2C, q);
        var hndl;
        rv, hndl := dev.QueueAdd(q, H2C, q < NET_QUEUE, 0);
        activeTx := activeTx + 1;
        if rv != 0 {
          return;
        }
        if q == 0 {
          baseTx := hndl.value;
        }
        if q == NET_QUEUE {
          mmH2c := baseTx + NET_QUEUE;
        }
        q := q + 1;
      }
      return 0;
    }

    /** Start `n` queues by consecutive handles, up to the first that cannot be. */
    method StartRange(base: nat, n: nat, setup: nat -> int) returns (rv: int, ghost done: nat)
      requires dev.Valid()
      modifies dev.descqs, dev.vectors
      ensures dev.Valid()
      ensures rv == 0 <==> Startable(old(dev.Model()), base, n, setup)
      ensures done <= n && Started(old(dev.Model()), dev.Model(), base, done)
      ensures Startable(old(dev.Model()), base, done, setup)
      ensures if rv == 0 then done == n else done < n && !Startable(old(dev.Model()), base, done + 1, setup)
    {
      hide Inv, StartStep, Bits.ApertureOk;
      done := 0;
      ghost var d := dev.Model();
      var q := 0;
      while q < n
        invariant 0 <= q <= n
        invariant done == q && dev.Valid() && Started(d, dev.Model(), base, q) && Startable(d, base, q, setup)
      {
        ghost var e := dev.Model();
        StartOne(e, base + q, setup(base + q));
        rv := dev.QueueStart(base + q, setup(base + q));
        if rv != 0 {
          return;
        }
        StartedMore(d, e, dev.Model(), base, q);
        q, done := q + 1, done + 1;
      }
      rv := 0;
    }

    /** Stop what is online among the first queues of each direction. */
    method QdmaStop(txq: nat, rxq: nat) returns (err: int)
      requires dev.Valid() && rxq <= dev.qmax && txq <= dev.qmax
      modifies dev.descqs, dev.vectors
      ensures dev.Valid()
      ensures (baseRx == dev.qmax || NoneOnline(old(dev.Model()), dev.qmax, rxq)) && baseTx == 0 ==>
                && err == 0
                && forall p :: 0 <= p < 3 * dev.qmax ==>
                     dev.descqs[p] == if p < txq || dev.qmax <= p < dev.qmax + rxq
                                      then D.Stopped(old(dev.descqs[p])) else old(dev.descqs[p])
    {
      hide Inv, StopStep;
      err := 0;
      ghost var good := (baseRx == dev.qmax || NoneOnline(dev.Model(), dev.qmax, rxq)) && baseTx == 0;
      ghost var was := dev.Model();
      D.Shape(was);
      var q := 0;
      while q < rxq
        invariant 0 <= q <= rxq && dev.Valid()
        invariant good ==> err == 0 && forall p :: 0 <= p < 3 * dev.qmax ==>
                    dev.Model().table[p] == if dev.qmax <= p < dev.qmax + q then D.Stopped(was.table[p])
                                            else was.table[p]
      {
        if dev.descqs[dev.qmax + q].state == Online {
          StopOne(dev.Model(), baseRx + q);
          var ret := dev.QueueStop(baseRx + q);
          if ret < 0 {
            err := -EINVAL;
          }
        }
        q := q + 1;
      }
      q := 0;
      while q < txq
        invariant 0 <= q <= txq && dev.Valid()
        invariant good ==> err == 0 && forall p :: 0 <= p < 3 * dev.qmax ==>
                    dev.Model().table[p] == if p < q || dev.qmax <= p < dev.qmax + rxq
                                            then D.Stopped(was.table[p]) else was.table[p]
      {
        if dev.descqs[q].state == Online {
          StopOne(dev.Model(), baseTx + q);
          var ret := dev.QueueStop(baseTx + q);
          if ret < 0 {
            err := -EINVAL;
          }
        }
        q := q + 1;
      }
    }

    /** Start the receive queues by consecutive handles from their base, then the
        transmit queues; `setup` is the result of allocating and programming each. */
    method QdmaStart(ghost rxNet: nat, ghost txNet: nat, setup: nat -> int) returns (rv: int)
      requires BroughtUp(dev.Model(), mmQueues, rxNet, txNet, mmC2h, mmH2c)
      requires activeRx == rxNet + mmQueues && activeTx == txNet + mmQueues
      requires baseRx == (if rxNet > 0 then dev.qmax else 0) && baseTx == 0
      modifies dev.descqs, dev.vectors
      ensures dev.Valid()
      ensures rv == 0 <==> (mmQueues == 0 || rxNet == NET_QUEUE)
                           && CanSetUp(setup, dev.qmax, activeRx) && CanSetUp(setup, 0, activeTx)
      ensures rv == 0 ==> Opened(dev.Model(), mmQueues, rxNet, txNet, mmC2h, mmH2c)
      ensures rv != 0 ==> LeftAs(old(dev.Model()), dev.Model(), mmQueues, rxNet, setup)
    {
      hide Inv, Startable, Started;
      ghost var d := dev.Model();
      if rxNet > 0 {
        RxStartable(d, mmQueues, rxNet, txNet, mmC2h, mmH2c, setup);
      }
      ghost var n, m;
      rv, n := StartRange(baseRx, activeRx, setup);
      ghost var e := dev.Model();
      if rv != 0 {
        NothingToStart(d, setup);
        if rxNet == 0 {
          NoRxOnline(d, e, mmQueues, txNet, mmC2h, mmH2c, n);
        }
        var err := QdmaStop(0, activeRx);
        RxUndone(d, e, dev.Model(), mmQueues, rxNet, txNet, mmC2h, mmH2c, setup, n);
        return;
      }
      if rxNet == 0 && mmQueues > 0 {
        NoRxNet(d, e, mmQueues, txNet, mmC2h, mmH2c, setup);
      } else {
        NothingStarted(d, e);
        TxStartable(d, e, mmQueues, rxNet, txNet, mmC2h, mmH2c, setup);
      }
      rv, m := StartRange(baseTx, activeTx, setup);
      ghost var f := dev.Model();
      if rv != 0 {
        var err := QdmaStop(activeTx, 0);
        TxUndone(d, e, f, dev.Model(), mmQueues, rxNet, txNet, mmC2h, mmH2c, setup, m);
        return;
      }
      AllOnline(d, e, dev.Model(), mmQueues, rxNet, txNet, mmC2h, mmH2c);
    }

    /** Receive queues first, then transmit queues, on a device just initialised. */
    method Setup(rxNet: nat, txNet: nat) returns (rv: int)
      requires Fresh(dev.Model()) && dev.caps.st && dev.caps.mm
      requires baseRx == baseTx == mmC2h == mmH2c == activeRx == activeTx == 0
      modifies this, dev, dev.descqs
      ensures rv == 0 <==> Fitting(dev.qmax, mmQueues, rxNet, txNet)
      ensures dev.Valid()
      ensures rv == 0 ==> BroughtUp(dev.Model(), mmQueues, rxNet, txNet, mmC2h, mmH2c)
      ensures rv == 0 ==> activeRx == rxNet + mmQueues && activeTx == txNet + mmQueues
      ensures rv == 0 ==> baseRx == (if rxNet > 0 then dev.qmax else 0) && baseTx == 0
    {
      hide Inv, Lifecycle.Fresh;
      FreshReady(dev.Model());
      rv := RxQueueSetup(rxNet);
      if rv != 0 {
        return;
      }
      ghost var d := dev.Model();
      RxToTx(d, rxNet, mmQueues);
      rv := TxQueueSetup(txNet);
      if rv == 0 {
        LaidSame(d, dev.Model(), C2H, rxNet, NET_QUEUE + mmQueues);
      }
    }
  }

  // ------------------------------------------------------------ opening

  /** There are resources for the queues at `base` up to `base + n`. */
  ghost predicate CanSetUp(setup: nat -> int, base: nat, n: nat) {
    forall p :: base <= p < base + n ==> setup(p) >= 0
  }

  /** Entries `base` up to `base + n` can all be started. */
  ghost predicate Startable(d: Dev, base: nat, n: nat, setup: nat -> int) {
    forall p :: base <= p < base + n ==>
      p < |d.table| && d.table[p].state.Enabled? && Bits.ApertureOk(d.table[p].aperture) && setup(p) >= 0
  }

  /** Those are online now, and the others as they were. */
  ghost predicate Started(d: Dev, e: Dev, base: nat, n: nat) {
    && e.qmax == d.qmax && |e.table| == |d.table|
    && forall p :: 0 <= p < |d.table| ==>
         if base <= p < base + n then e.table[p] == d.table[p].(state := Online, vec := e.table[p].vec)
         else e.table[p] == d.table[p]
  }

  lemma StartOne(d: Dev, id: nat, setup: int)
    requires Inv(d)
    ensures |d.table| == 3 * d.qmax && VectorsOk(d)
    ensures var (e, rv) := StartStep(d, id, setup);
            && (rv == 0 <==>
                  id < |d.table| && d.table[id].state.Enabled? && Bits.ApertureOk(d.table[id].aperture) && setup >= 0)
            && if rv == 0 then Started(d, e, id, 1) else e == d
  {
    hide Bits.ApertureOk, VectorFor;
  }

  lemma StartedMore(d: Dev, e: Dev, f: Dev, base: nat, n: nat)
    requires Started(d, e, base, n) && Started(e, f, base + n, 1)
    ensures Started(d, f, base, n + 1)
  {
  }

  lemma StopOne(d: Dev, id: nat)
    requires Inv(d)
    ensures |d.table| == 3 * d.qmax
    ensures id < |d.table| && d.table[id].state.Online? ==>
              StopStep(d, id).1 == 0 && StopStep(d, id).0.table == d.table[id := D.Stopped(d.table[id])]
  {
  }

  /** An empty range can always be started. */
  lemma NothingToStart(d: Dev, setup: nat -> int)
    ensures Startable(d, 0, 0, setup)
  {
  }

  /** Starting an empty range starts it anywhere. */
  lemma NothingStarted(d: Dev, e: Dev)
    ensures Started(d, e, 0, 0) ==> forall b :: Started(d, e, b, 0)
  {
  }

  /** The device once the interface is up: every queue added is online. */
  ghost predicate Opened(d: Dev, mm: nat, rxNet: nat, txNet: nat, mmC2h: nat, mmH2c: nat) {
    && |d.table| == 3 * d.qmax && Fitting(d.qmax, mm, rxNet, txNet)
    && OnlineUpTo(d, C2H, rxNet, NET_QUEUE + mm) && OnlineUpTo(d, H2C, txNet + mm, NET_QUEUE)
    && (mm > 0 ==> rxNet == NET_QUEUE && mmC2h == d.qmax + NET_QUEUE)
    && mmH2c == if txNet + mm > NET_QUEUE then NET_QUEUE else 0
  }

  ghost predicate OnlineUpTo(d: Dev, t: QType, a: nat, b: nat)
    requires |d.table| == 3 * d.qmax
  {
    forall i :: 0 <= i < d.qmax ==>
      if i < a || NET_QUEUE <= i < b
      then At(d, t, i).state.Online? && At(d, t, i).st == (i < NET_QUEUE)
      else !Present(At(d, t, i))
  }

  /** Starting a direction's queues by consecutive handles works only if they lie at
      consecutive indices. */
  lemma RxStartable(d: Dev, mm: nat, rxNet: nat, txNet: nat, mmC2h: nat, mmH2c: nat, setup: nat -> int)
    requires BroughtUp(d, mm, rxNet, txNet, mmC2h, mmH2c) && rxNet > 0
    ensures Startable(d, d.qmax, rxNet + mm, setup) <==>
            (mm == 0 || rxNet == NET_QUEUE) && CanSetUp(setup, d.qmax, rxNet + mm)
  {
    hide Inv;
    var base, n := d.qmax, rxNet + mm;
    if mm == 0 || rxNet == NET_QUEUE {
      forall p | base <= p < base + n
        ensures p < |d.table| && d.table[p].state.Enabled? && Bits.ApertureOk(d.table[p].aperture)
      {
        assert At(d, C2H, p - base) == d.table[p];
      }
    } else {
      assert At(d, C2H, rxNet) == d.table[base + rxNet];
    }
  }

  /** With the transmit table untouched so far, all its queues can be started. */
  lemma TxStartable(d: Dev, e: Dev, mm: nat, rxNet: nat, txNet: nat, mmC2h: nat, mmH2c: nat, setup: nat -> int)
    requires BroughtUp(d, mm, rxNet, txNet, mmC2h, mmH2c)
    requires Started(d, e, d.qmax, rxNet + mm)
    ensures Startable(e, 0, txNet + mm, setup) <==> CanSetUp(setup, 0, txNet + mm)
  {
    hide Inv;
    forall p | 0 <= p < txNet + mm
      ensures p < |e.table| && e.table[p].state.Enabled? && Bits.ApertureOk(e.table[p].aperture)
    {
      assert At(d, H2C, p) == d.table[p];
    }
  }

  ghost predicate NoneOnline(d: Dev, base: nat, n: nat) {
    forall p :: base <= p < base + n && p < |d.table| ==> !d.table[p].state.Online?
  }

  /** The entries after stopping what is online below `txq` and among the first `rxq`
      receive queues. */
  ghost predicate StoppedIn(d: Dev, e: Dev, txq: nat, rxq: nat) {
    && e.qmax == d.qmax && |e.table| == |d.table| == 3 * d.qmax
    && forall p :: 0 <= p < 3 * d.qmax ==>
         e.table[p] == if p < txq || d.qmax <= p < d.qmax + rxq then D.Stopped(d.table[p]) else d.table[p]
  }

  /** What a failed start leaves online: all the receive queues if only a transmit queue
      could not be started; and without network receive queues, when the receive sweep
      runs over the transmit queues, those it had started before it failed. */
  ghost predicate StaysOnline(qmax: nat, mm: nat, rxNet: nat, setup: nat -> int, p: nat) {
    if rxNet > 0
    then qmax <= p < qmax + rxNet + mm && (mm == 0 || rxNet == NET_QUEUE) && CanSetUp(setup, qmax, rxNet + mm)
    else p < mm && CanSetUp(setup, 0, p + 1) && !CanSetUp(setup, 0, mm)
  }

  /** The entries after a failed start. */
  ghost predicate LeftAs(d: Dev, g: Dev, mm: nat, rxNet: nat, setup: nat -> int) {
    && |g.table| == |d.table| == 3 * d.qmax
    && forall p :: 0 <= p < 3 * d.qmax ==>
         g.table[p] == d.table[p].(vec := g.table[p].vec,
                                   state := if StaysOnline(d.qmax, mm, rxNet, setup, p) then Online
                                            else d.table[p].state)
  }

  /** A failed start leaves every queue offline exactly if not all receive queues could
      be started; without network receive queues, exactly if the receive sweep started
      all it was to start, or none. */
  lemma CleanFailureIff(d: Dev, g: Dev, mm: nat, rxNet: nat, txNet: nat, mmC2h: nat, mmH2c: nat, setup: nat -> int)
    requires BroughtUp(d, mm, rxNet, txNet, mmC2h, mmH2c) && LeftAs(d, g, mm, rxNet, setup)
    ensures NoneOnline(g, 0, 2 * d.qmax) <==>
            if rxNet > 0 then (mm > 0 && rxNet != NET_QUEUE) || !CanSetUp(setup, d.qmax, rxNet + mm)
            else mm == 0 || setup(0) < 0 || CanSetUp(setup, 0, mm)
  {
    hide BroughtUp, Inv;
    NothingOnline(d, mm, rxNet, txNet, mmC2h, mmH2c);
    var first := if rxNet > 0 then d.qmax else 0;
    assert first < 2 * d.qmax && StaysOnline(d.qmax, mm, rxNet, setup, first) ==> g.table[first].state.Online?;
  }

  /** The table after bring-up, entry by entry: nothing is online, and the transmit
      queues are the first of it. */
  lemma NothingOnline(d: Dev, mm: nat, rxNet: nat, txNet: nat, mmC2h: nat, mmH2c: nat)
    requires BroughtUp(d, mm, rxNet, txNet, mmC2h, mmH2c)
    ensures rxNet + mm <= d.qmax && txNet + mm <= d.qmax && |d.table| == 3 * d.qmax
    ensures forall p :: 0 <= p < 2 * d.qmax ==> !d.table[p].state.Online?
    ensures forall p :: 0 <= p < txNet + mm ==> d.table[p].state.Enabled? && Bits.ApertureOk(d.table[p].aperture)
  {
    hide Inv;
    forall p | 0 <= p < 2 * d.qmax
      ensures !d.table[p].state.Online?
      ensures p < txNet + mm ==> d.table[p].state.Enabled? && Bits.ApertureOk(d.table[p].aperture)
    {
      assert d.table[p] == if p < d.qmax then At(d, H2C, p) else At(d, C2H, p - d.qmax);
    }
  }

  /** Without network receive queues no receive queue is ever started. */
  lemma NoRxOnline(d: Dev, e: Dev, mm: nat, txNet: nat, mmC2h: nat, mmH2c: nat, n: nat)
    requires BroughtUp(d, mm, 0, txNet, mmC2h, mmH2c) && Started(d, e, 0, n) && n <= mm
    ensures NoneOnline(e, d.qmax, mm)
  {
    hide BroughtUp, Inv;
    NothingOnline(d, mm, 0, txNet, mmC2h, mmH2c);
  }

  /** A receive sweep that fails is undone if it ran over receive queues. */
  lemma RxUndone(d: Dev, e: Dev, g: Dev, mm: nat, rxNet: nat, txNet: nat, mmC2h: nat, mmH2c: nat,
                 setup: nat -> int, n: nat)
    requires BroughtUp(d, mm, rxNet, txNet, mmC2h, mmH2c)
    requires var base := if rxNet > 0 then d.qmax else 0;
             && Started(d, e, base, n) && Startable(d, base, n, setup)
             && n < rxNet + mm && !Startable(d, base, n + 1, setup)
    requires rxNet > 0 ==> !((mm == 0 || rxNet == NET_QUEUE) && CanSetUp(setup, d.qmax, rxNet + mm))
    requires StoppedIn(e, g, 0, rxNet + mm)
    ensures LeftAs(d, g, mm, rxNet, setup)
  {
    hide BroughtUp, Inv, Bits.ApertureOk;
    NothingOnline(d, mm, rxNet, txNet, mmC2h, mmH2c);
    if rxNet == 0 {
      assert setup(n) < 0;
    }
  }

  /** A transmit sweep that fails is undone, and with it a receive sweep that ran over
      the transmit queues. */
  lemma TxUndone(d: Dev, e: Dev, f: Dev, g: Dev, mm: nat, rxNet: nat, txNet: nat, mmC2h: nat, mmH2c: nat,
                 setup: nat -> int, m: nat)
    requires BroughtUp(d, mm, rxNet, txNet, mmC2h, mmH2c)
    requires var base := if rxNet > 0 then d.qmax else 0;
             Started(d, e, base, rxNet + mm) && Startable(d, base, rxNet + mm, setup)
    requires rxNet > 0 ==> (mm == 0 || rxNet == NET_QUEUE) && CanSetUp(setup, d.qmax, rxNet + mm)
    requires m < txNet + mm && Started(e, f, 0, m) && StoppedIn(f, g, txNet + mm, 0)
    ensures LeftAs(d, g, mm, rxNet, setup)
  {
    hide BroughtUp, Inv, Bits.ApertureOk;
    NothingOnline(d, mm, rxNet, txNet, mmC2h, mmH2c);
  }

  lemma AllOnline(d: Dev, e: Dev, f: Dev, mm: nat, rxNet: nat, txNet: nat, mmC2h: nat, mmH2c: nat)
    requires BroughtUp(d, mm, rxNet, txNet, mmC2h, mmH2c) && (mm == 0 || rxNet == NET_QUEUE)
    requires Started(d, e, d.qmax, rxNet + mm) && Started(e, f, 0, txNet + mm)
    ensures Opened(f, mm, rxNet, txNet, mmC2h, mmH2c)
  {
    hide Inv;
    forall i | 0 <= i < f.qmax
      ensures if i < rxNet || NET_QUEUE <= i < NET_QUEUE + mm
              then At(f, C2H, i).state.Online? && At(f, C2H, i).st == (i < NET_QUEUE) else !Present(At(f, C2H, i))
    {
      assert At(d, C2H, i) == d.table[d.qmax + i];
    }
    forall i | 0 <= i < f.qmax
      ensures if i < txNet + mm
              then At(f, H2C, i).state.Online? && At(f, H2C, i).st == (i < NET_QUEUE) else !Present(At(f, H2C, i))
    {
      assert At(d, H2C, i) == d.table[i];
    }
  }

  /** Without network receive queues the base handle is still zero, and the receive
      sweep starts transmit queues, which the transmit sweep then finds online. */
  lemma NoRxNet(d: Dev, e: Dev, mm: nat, txNet: nat, mmC2h: nat, mmH2c: nat, setup: nat -> int)
    requires BroughtUp(d, mm, 0, txNet, mmC2h, mmH2c) && mm > 0
    requires Started(d, e, 0, mm)
    ensures !Startable(e, 0, txNet + mm, setup)
  {
    hide Inv;
    assert e.table[0].state.Online?;
  }

  predicate Fitting(qmax: nat, mm: nat, rxNet: nat, txNet: nat) {
    && rxNet <= qmax && txNet + mm <= qmax
    && (mm > 0 ==> rxNet <= NET_QUEUE && NET_QUEUE + mm <= qmax)
  }

  /** The tables and the two pool handles after a successful bring-up. */
  ghost predicate BroughtUp(d: Dev, mm: nat, rxNet: nat, txNet: nat, mmC2h: nat, mmH2c: nat) {
    && Inv(d) && |d.table| == 3 * d.qmax
    && Fitting(d.qmax, mm, rxNet, txNet)
    && Laid(d, C2H, rxNet, NET_QUEUE + mm) && Laid(d, H2C, txNet + mm, NET_QUEUE)
    && (mm > 0 ==> mmC2h == (if rxNet > 0 then d.qmax else 0) + NET_QUEUE)
    && mmH2c == if txNet + mm > NET_QUEUE then NET_QUEUE else 0
  }

  lemma FreshReady(d: Dev)
    requires Lifecycle.Fresh(d) && d.caps.st && d.caps.mm
    ensures Ready(d, C2H) && Laid(d, C2H, 0, NET_QUEUE) && Laid(d, H2C, 0, NET_QUEUE)
  {
    hide Inv;
    FreshInv(d);
    assert forall t, i: nat :: i < d.qmax ==> At(d, t, i).state.Disabled?;
  }

  lemma RxToTx(d: Dev, net: nat, mm: nat)
    requires Ready(d, C2H) && Laid(d, C2H, net, NET_QUEUE + mm)
    ensures Ready(d, H2C)
  {
    hide Inv;
  }

  lemma LaidSame(d: Dev, e: Dev, t: QType, a: nat, b: nat)
    requires |d.table| == |e.table| == 3 * d.qmax && e.qmax == d.qmax
    requires Laid(d, t, a, b) && (forall i: nat :: i < d.qmax ==> At(e, t, i) == At(d, t, i))
    ensures Laid(e, t, a, b)
  {
  }

  // ------------------------------------------------------------ pool ids

  /** The handle a character-device transfer uses for pool id `q`. */
  function TokenHandle(write: bool, q: nat, mmC2h: nat, mmH2c: nat): nat {
    if write then mmH2c + q else mmC2h + q
  }

  /** The id reaches the memory-mapped queue meant for it. */
  ghost predicate Reaches(d: Dev, write: bool, q: nat, id: nat)
    requires |d.table| == 3 * d.qmax
  {
    var t := if write then H2C else C2H;
    && Decode(d.qmax, id) == Some((t, NET_QUEUE + q))
    && Present(At(d, t, NET_QUEUE + q)) && !At(d, t, NET_QUEUE + q).st
  }

  /** Every pool id reaches its own queue: for reads exactly when there is at least
      one receive network queue, for writes exactly when the transmit network queues
      fill all places below the fixed index. */
  lemma TokensReachIff(d: Dev, mm: nat, rxNet: nat, txNet: nat, mmC2h: nat, mmH2c: nat)
    requires BroughtUp(d, mm, rxNet, txNet, mmC2h, mmH2c) && mm > 0
    ensures (forall q :: 0 <= q < mm ==> Reaches(d, false, q, TokenHandle(false, q, mmC2h, mmH2c))) <==> rxNet > 0
    ensures (forall q :: 0 <= q < mm ==> Reaches(d, true, q, TokenHandle(true, q, mmC2h, mmH2c)))
            <==> txNet >= NET_QUEUE
  {
    hide Inv;
    if rxNet > 0 {
      forall q | 0 <= q < mm
        ensures Reaches(d, false, q, TokenHandle(false, q, mmC2h, mmH2c))
      {
        DecodeInvertsHandle(d.qmax, C2H, NET_QUEUE + q, mmC2h + q);
      }
    } else {
      assert !Reaches(d, false, 0, TokenHandle(false, 0, mmC2h, mmH2c));
    }
    if txNet >= NET_QUEUE {
      forall q | 0 <= q < mm
        ensures Reaches(d, true, q, TokenHandle(true, q, mmC2h, mmH2c))
      {
        DecodeInvertsHandle(d.qmax, H2C, NET_QUEUE + q, mmH2c + q);
      }
    } else {
      assert !Present(At(d, H2C, NET_QUEUE + mm - 1));
      assert !Reaches(d, true, mm - 1, TokenHandle(true, mm - 1, mmC2h, mmH2c));
    }
  }

  /** The id reaches a queue that is online. */
  ghost predicate ReachesOnline(d: Dev, write: bool, q: nat, id: nat)
    requires |d.table| == 3 * d.qmax
  {
    Reaches(d, write, q, id) && At(d, if write then H2C else C2H, NET_QUEUE + q).state.Online?
  }

  /** Once the interface is up every read id reaches an online queue of its own; every
      write id does exactly when the transmit network queues reach the fixed index. */
  lemma TokensOnlineIff(d: Dev, mm: nat, rxNet: nat, txNet: nat, mmC2h: nat, mmH2c: nat)
    requires Opened(d, mm, rxNet, txNet, mmC2h, mmH2c) && mm > 0
    ensures forall q :: 0 <= q < mm ==> ReachesOnline(d, false, q, TokenHandle(false, q, mmC2h, mmH2c))
    ensures (forall q :: 0 <= q < mm ==> ReachesOnline(d, true, q, TokenHandle(true, q, mmC2h, mmH2c)))
            <==> txNet >= NET_QUEUE
  {
    forall q | 0 <= q < mm
      ensures ReachesOnline(d, false, q, TokenHandle(false, q, mmC2h, mmH2c))
    {
      DecodeInvertsHandle(d.qmax, C2H, NET_QUEUE + q, mmC2h + q);
    }
    if txNet >= NET_QUEUE {
      forall q | 0 <= q < mm
        ensures ReachesOnline(d, true, q, TokenHandle(true, q, mmC2h, mmH2c))
      {
        DecodeInvertsHandle(d.qmax, H2C, NET_QUEUE + q, mmH2c + q);
      }
    } else {
      assert !Present(At(d, H2C, NET_QUEUE + mm - 1));
      assert !ReachesOnline(d, true, mm - 1, TokenHandle(true, mm - 1, mmC2h, mmH2c));
    }
  }

  /** Queue separation: any two transfers in flight in one direction drive different
      memory-mapped queues of that direction, over every run of the pool. */
  lemma TransfersDriveDistinctQueues(d: Dev, rxNet: nat, txNet: nat, mmC2h: nat, mmH2c: nat,
                                     s: Pool.State, t: nat, u: nat, write: bool)
    requires Opened(d, |s.slots|, rxNet, txNet, mmC2h, mmH2c) && (write ==> txNet >= NET_QUEUE)
    requires Pool.Reachable(s) && t != u
    requires Pool.Holds(Pool.PhaseOf(s, t)) && Pool.Holds(Pool.PhaseOf(s, u))
    ensures var q, r := Pool.PhaseOf(s, t).q, Pool.PhaseOf(s, u).q;
            var g, h := TokenHandle(write, q, mmC2h, mmH2c), TokenHandle(write, r, mmC2h, mmH2c);
            && ReachesOnline(d, write, q, g) && ReachesOnline(d, write, r, h)
            && Decode(d.qmax, g).value.0 == Decode(d.qmax, h).value.0
            && Decode(d.qmax, g).value.1 != Decode(d.qmax, h).value.1
  {
    hide Opened, ReachesOnline, Pool.Reachable, Decode;
    Pool.MutualExclusion(s, t, u);
    Pool.MutualExclusion(s, u, t);
    var q, r := Pool.PhaseOf(s, t).q, Pool.PhaseOf(s, u).q;
    TokensOnlineIff(d, |s.slots|, rxNet, txNet, mmC2h, mmH2c);
    OpenedShape(d, |s.slots|, rxNet, txNet, mmC2h, mmH2c);
    ReachedAt(d, write, q, TokenHandle(write, q, mmC2h, mmH2c));
    ReachedAt(d, write, r, TokenHandle(write, r, mmC2h, mmH2c));
  }

  lemma OpenedShape(d: Dev, mm: nat, rxNet: nat, txNet: nat, mmC2h: nat, mmH2c: nat)
    requires Opened(d, mm, rxNet, txNet, mmC2h, mmH2c)
    ensures |d.table| == 3 * d.qmax
  {
  }

  lemma ReachedAt(d: Dev, write: bool, q: nat, id: nat)
    requires |d.table| == 3 * d.qmax && ReachesOnline(d, write, q, id)
    ensures Decode(d.qmax, id) == Some((if write then H2C else C2H, NET_QUEUE + q))
  {
  }
}
