// The queue tables of a device, updated in place: initialisation, look-up in both
// directions, the add, remove, start and stop calls, and teardown.
module Device {
  import opened Scatter
  import opened Lifecycle
  import Bits

  class Device {
    const qmax: nat
    const caps: Caps
    const mode: IrqMode
    const dataVecs: nat
    const descqs: array<Entry>
    const vectors: array<nat>
    var h2c: nat
    var c2h: nat
    var cmpt: nat

    ghost function Model(): Dev
      reads this, descqs, vectors
    {
      Dev(qmax, caps, descqs[..], h2c, c2h, cmpt, mode, dataVecs, vectors[..])
    }

    ghost predicate Valid()
      reads this, descqs, vectors
    {
      Inv(Model())
    }

    /** `numVecs` vectors are set up, of which `dataVecs` carry data. */
    constructor (qmax: nat, caps: Caps, mode: IrqMode, dataVecs: nat, numVecs: nat)
      requires if mode.Uncounted? then numVecs == 0 else 0 < dataVecs <= numVecs
      ensures Valid() && Fresh(Model())
      ensures this.qmax == qmax && this.caps == caps && this.mode == mode && this.dataVecs == dataVecs
      ensures vectors.Length == numVecs
      ensures fresh(descqs) && fresh(vectors)
    {
      this.qmax, this.caps, this.mode, this.dataVecs := qmax, caps, mode, dataVecs;
      h2c, c2h, cmpt := 0, 0, 0;
      descqs := new Entry[3 * qmax](_ => Entry(Disabled, false, 0, 0));
      vectors := new nat[numVecs](_ => 0);
      new;
      FreshInv(Model());
    }

    /** The entry a handle names, found by subtracting the table size; `init` asks
        for a queue that has been added. */
    method GetDescqById(id: nat, init: bool) returns (r: Option<nat>)
      requires descqs.Length == 3 * qmax
      ensures r == if id < 3 * qmax && (init ==> Present(descqs[id])) then Some(id) else None
      ensures r.Some? ==> exists t, idx: nat :: Decode(qmax, id) == Some((t, idx)) && r.value == Base(qmax, t) + idx
    {
      var idx, descq := id, 0;
      if idx >= qmax {
        idx := idx - qmax;
        if idx >= qmax {
          idx := idx - qmax;
          if idx >= qmax {
            return None;
          }
          descq := 2 * qmax + idx;
          assert Decode(qmax, id) == Some((CMPT, idx)) && descq == Base(qmax, CMPT) + idx;
        } else {
          descq := qmax + idx;
          assert Decode(qmax, id) == Some((C2H, idx)) && descq == Base(qmax, C2H) + idx;
        }
      } else {
        descq := idx;
        assert Decode(qmax, id) == Some((H2C, idx)) && descq == Base(qmax, H2C) + idx;
      }
      if init && descqs[descq].state == Disabled {
        return None;
      }
      return Some(descq);
    }

    /** The handle of an entry whose configuration says it is of type `t`: a search
        through two tables' worth of places from the start of that type's table. */
    method GetIdFromDescq(descq: nat, t: QType) returns (id: int)
      requires descq < 3 * qmax
      ensures id == if Base(qmax, t) <= descq < Base(qmax, t) + 2 * qmax then descq else -EINVAL
      ensures forall idx: nat :: idx < qmax && descq == Handle(qmax, t, idx) ==> id == descq
    {
      var at := match t case H2C => 0 case C2H => qmax case CMPT => 2 * qmax;
      var idx := at;
      var idxMax := idx + 2 * qmax;
      while idx < idxMax
        invariant Base(qmax, t) <= idx == at <= idxMax
        invariant !(Base(qmax, t) <= descq < idx)
      {
        if at == descq {
          return idx;
        }
        idx, at := idx + 1, at + 1;
      }
      return -EINVAL;
    }

    /** Presence bits and one mode bit are gathered, then each case rejects. */
    method IsUsable(idx: nat, t: QType, st: bool) returns (ok: bool)
      requires descqs.Length == 3 * qmax && idx < qmax
      ensures ok == Usable(Model(), idx, t, st)
      ensures Valid() ==> ok == Fits(Model(), idx, t, st)
    {
      var hasH2c, hasC2h, hasCmpt, mode := false, false, false, false;
      if descqs[idx].state != Disabled {
        hasH2c := true;
        if descqs[idx].st {
          mode := true;
        }
      }
      if descqs[qmax + idx].state != Disabled {
        hasC2h := true;
        if descqs[qmax + idx].st {
          mode := true;
        }
      }
      if descqs[2 * qmax + idx].state != Disabled {
        hasCmpt := true;
      }
      if Inv(Model()) {
        UsableIff(Model(), idx, t, st);
      }
      if t == CMPT {
        if hasCmpt || mode {
          return false;
        }
      } else if t == H2C {
        if st && hasCmpt {
          return false;
        }
        if st && hasC2h && !mode {
          return false;
        }
        if !st && hasC2h && mode {
          return false;
        }
        if hasH2c {
          return false;
        }
      } else {
        if st && hasCmpt {
          return false;
        }
        if st && hasH2c && !mode {
          return false;
        }
        if !st && hasH2c && mode {
          return false;
        }
        if hasC2h {
          return false;
        }
      }
      return true;
    }

    method ActiveCount(t: QType) returns (n: nat)
      ensures n == CountOf(Model(), t)
    {
      n := match t case H2C => h2c case C2H => c2h case CMPT => cmpt;
    }

    method IncrementActive(t: QType) returns (rv: int)
      modifies this`h2c, this`c2h, this`cmpt
      ensures rv == if qmax < CountOf(old(Model()), t) + 1 then -NO_QUEUES_LEFT else 0
      ensures Model() == if rv == 0 then WithCount(old(Model()), t, CountOf(old(Model()), t) + 1) else old(Model())
    {
      var n := ActiveCount(t);
      if qmax < n + 1 {
        return -NO_QUEUES_LEFT;
      }
      match t {
        case H2C => h2c := n + 1;
        case C2H => c2h := n + 1;
        case CMPT => cmpt := n + 1;
      }
      return 0;
    }

    method DecrementActive(t: QType)
      modifies this`h2c, this`c2h, this`cmpt
      ensures Model() == WithCount(old(Model()), t, Lower(CountOf(old(Model()), t)))
    {
      match t {
        case H2C => if h2c > 0 { h2c := h2c - 1; }
        case C2H => if c2h > 0 { c2h := c2h - 1; }
        case CMPT => if cmpt > 0 { cmpt := cmpt - 1; }
      }
    }

    /** Add a queue at an explicit index; on success its handle is returned. */
    method QueueAdd(idx: nat, t: QType, st: bool, aperture: nat) returns (rv: int, hndl: Option<nat>)
      requires Valid()
      modifies this, descqs
      ensures Valid()
      ensures (Model(), rv) == AddStep(old(Model()), idx, t, st, aperture)
      ensures hndl == if rv == 0 then Some(Handle(qmax, t, idx)) else None
      ensures rv == 0 ==> hndl == Some(idx + (if t.H2C? then 0 else if t.C2H? then qmax else 2 * qmax))
      ensures rv == 0 <==> Supported(caps, t, st) && idx < qmax && Fits(old(Model()), idx, t, st)
    {
      hide Inv, Fits, Usable;
      ghost var d := Model();
      Shape(d);
      AddKeeps(d, idx, t, st, aperture);
      AddSucceedsIff(d, idx, t, st, aperture);
      if st && t == CMPT {
        return -EINVAL, None;
      }
      if t == CMPT && !caps.mmCmpt {
        return -EINVAL, None;
      }
      if (st && !caps.st) || (!st && !caps.mm) {
        return -EINVAL, None;
      }
      if idx >= qmax {
        return -EINVAL, None;
      }
      var n := ActiveCount(t);
      if n >= qmax {
        return -EIO, None;
      }
      var ok := IsUsable(idx, t, st);
      if !ok {
        return -EPERM, None;
      }
      Enable(idx, t, st, aperture);
      rv := CountAdded(t, st);
      hndl := None;
      if rv < 0 {
        return;
      }
      var h := idx;
      if t == C2H {
        h := h + qmax;
      }
      if t == CMPT {
        h := h + 2 * qmax;
      }
      return 0, Some(h);
    }

    /** Mark the entry enabled, then copy the configuration into it. */
    method Enable(idx: nat, t: QType, st: bool, aperture: nat)
      requires descqs.Length == 3 * qmax && idx < qmax
      modifies descqs
      ensures Model() == SetEntry(old(Model()), Handle(qmax, t, idx),
                                  At(old(Model()), t, idx).(state := Enabled, st := st, aperture := aperture))
    {
      var descq := idx + match t case H2C => 0 case C2H => qmax case CMPT => 2 * qmax;
      descqs[descq] := descqs[descq].(state := Enabled);
      descqs[descq] := descqs[descq].(st := st, aperture := aperture);
    }

    /** Raise the count of the queue's type, and the completion count as well for a
        streaming C2H queue; the first is lowered again when the second cannot. */
    method CountAdded(t: QType, st: bool) returns (rv: int)
      modifies this`h2c, this`c2h, this`cmpt
      ensures (Model(), rv) == RaiseCounts(old(Model()), t, st)
    {
      rv := IncrementActive(t);
      if rv < 0 {
        return;
      }
      if st && t == C2H {
        rv := IncrementActive(CMPT);
        if rv < 0 {
          DecrementActive(t);
        }
      }
    }

    method QueueRemove(id: nat) returns (rv: int)
      requires Valid()
      modifies this, descqs
      ensures Valid()
      ensures (Model(), rv) == RemoveStep(old(Model()), id)
    {
      hide Inv;
      ghost var d := Model();
      Shape(d);
      RemoveKeeps(d, id);
      var descq := GetDescqById(id, true);
      if descq.None? {
        return -EINVAL;
      }
      if descqs[id].state != Enabled {
        return -EINVAL;
      }
      var t := TypeAt(id);
      DecrementActive(t);
      if descqs[id].st && t == C2H {
        DecrementActive(CMPT);
      }
      descqs[id] := descqs[id].(state := Disabled);
      return 0;
    }

    function TypeAt(p: nat): (t: QType)
      requires p < 3 * qmax
      ensures Decode(qmax, p) == Some((t, p - Base(qmax, t)))
    {
      if p < qmax then H2C else if p < 2 * qmax then C2H else CMPT
    }

    /** Choose the vector of a queue being started: the first idle one, else the
        first of the least loaded. */
    method AllocIrq() returns (idx: nat)
      requires VectorsOk(Model()) && vectors.Length > 0
      ensures idx == VectorFor(Model())
      ensures mode.Direct? ==> idx < dataVecs && forall v :: 0 <= v < dataVecs ==> vectors[idx] <= vectors[v]
    {
      idx := 0;
      if mode == Direct {
        var min := -1;
        var i := 0;
        while i < dataVecs
          invariant 0 <= i <= dataVecs
          invariant i == 0 ==> idx == 0 && min == -1
          invariant i > 0 ==> idx == FirstLeast(vectors[..], i) && min == vectors[idx] > 0
        {
          if vectors[i] == 0 {
            idx := i;
            FirstIdle(vectors[..], i, dataVecs);
            break;
          }
          if min < 0 {
            min := vectors[i];
          }
          if vectors[i] < min {
            min := vectors[i];
            idx := i;
          }
          i := i + 1;
        }
      }
    }

    /** Bring an added queue online; `setup` is the result of allocating and
        programming it. */
    method QueueStart(id: nat, setup: int) returns (rv: int)
      requires Valid()
      modifies descqs, vectors
      ensures Valid()
      ensures (Model(), rv) == StartStep(old(Model()), id, setup)
    {
      hide Inv;
      ghost var d := Model();
      Shape(d);
      StartKeeps(d, id, setup);
      var descq := GetDescqById(id, true);
      if descq.None? {
        return -EINVAL;
      }
      if descqs[id].state != Enabled {
        return -EINVAL;
      }
      var aperture := descqs[id].aperture;
      if aperture != 0 && Bits.And(aperture, aperture - 1) != 0 {
        return -ERANGE;
      }
      if setup < 0 {
        return setup;
      }
      if vectors.Length > 0 {
        var v := AllocIrq();
        vectors[v] := vectors[v] + 1;
        descqs[id] := descqs[id].(vec := v);
        assert vectors[..] == d.loads[v := d.loads[v] + 1];
      }
      descqs[id] := descqs[id].(state := Online);
      assert descqs[..] == d.table[id := descqs[id]];
      assert Model() == StartStep(d, id, setup).0;
      return 0;
    }

    method QueueStop(id: nat) returns (rv: int)
      requires Valid()
      modifies descqs, vectors
      ensures Valid()
      ensures (Model(), rv) == StopStep(old(Model()), id)
    {
      hide Inv;
      ghost var d := Model();
      Shape(d);
      StopKeeps(d, id);
      var descq := GetDescqById(id, true);
      if descq.None? {
        return -EINVAL;
      }
      if descqs[id].state != Online {
        return -EINVAL;
      }
      CountsNeverFloor(d, id);
      descqs[id] := descqs[id].(state := Enabled);
      if mode != Uncounted {
        var v := descqs[id].vec;
        vectors[v] := vectors[v] - 1;
      }
      return 0;
    }

    /** Stop what is online among the two transfer directions. */
    method StopAll()
      requires Valid()
      modifies descqs, vectors
      ensures Valid()
      ensures SameButStates(old(Model()), Model())
      ensures forall p :: 0 <= p < 2 * qmax ==>
                Model().table[p] == Stopped(old(Model()).table[p])
      ensures forall p :: 2 * qmax <= p < 3 * qmax ==> Model().table[p] == old(Model()).table[p]
    {
      hide Inv, StopStep;
      ghost var d := Model();
      Shape(d);
      var i := 0;
      while i < 2 * qmax
        invariant 0 <= i <= 2 * qmax
        invariant Valid() && SameButStates(d, Model())
        invariant forall p :: 0 <= p < i ==> Model().table[p] == Stopped(d.table[p])
        invariant forall p :: i <= p < 3 * qmax ==> Model().table[p] == d.table[p]
      {
        ghost var e := Model();
        if descqs[i].state == Online {
          StopTouches(e, i);
          var _ := QueueStop(i);
        }
        i := i + 1;
      }
    }

    /** Remove what is enabled among the two transfer directions. */
    method RemoveAll()
      requires Valid()
      requires forall p :: 0 <= p < 2 * qmax ==> !Model().table[p].state.Online?
      modifies this, descqs
      ensures Valid()
      ensures TornDown(old(Model()), Model())
    {
      hide Inv, RemoveStep;
      ghost var d := Model();
      Shape(d);
      var i := 0;
      while i < 2 * qmax
        invariant 0 <= i <= 2 * qmax
        invariant Valid() && SameButStates(d, Model())
        invariant forall p :: 0 <= p < i ==> Model().table[p].state.Disabled?
        invariant forall p :: i <= p < 3 * qmax ==> Model().table[p] == d.table[p]
      {
        ghost var e := Model();
        if descqs[i].state == Enabled {
          RemoveTouches(e, i);
          var _ := QueueRemove(i);
        }
        i := i + 1;
      }
    }

    /** Teardown stops and removes every queue of the two transfer directions. */
    method Cleanup()
      requires Valid()
      modifies this, descqs, vectors
      ensures Valid()
      ensures TornDown(old(Model()), Model())
    {
      hide Inv;
      StopAll();
      RemoveAll();
    }
  }

  function Stopped(e: Entry): Entry {
    if e.state.Online? then e.(state := Enabled) else e
  }

  lemma Shape(d: Dev)
    requires Inv(d)
    ensures |d.table| == 3 * d.qmax && VectorsOk(d)
  {
  }

  lemma StopTouches(d: Dev, id: nat)
    requires Inv(d) && id < |d.table| && d.table[id].state.Online?
    ensures var e := StopStep(d, id).0;
            SameButStates(d, e) && e.table == d.table[id := Stopped(d.table[id])]
  {
  }

  lemma RemoveTouches(d: Dev, id: nat)
    requires Inv(d) && id < |d.table| && d.table[id].state.Enabled?
    ensures var e := RemoveStep(d, id).0;
            SameButStates(d, e) && e.table == d.table[id := d.table[id].(state := Disabled)]
  {
  }

  /** Two devices that differ at most in states, counts and loads. */
  ghost predicate SameButStates(d: Dev, e: Dev) {
    && e.qmax == d.qmax && e.caps == d.caps && e.mode == d.mode && e.dataVecs == d.dataVecs
    && |e.loads| == |d.loads| && |e.table| == |d.table| == 3 * d.qmax
    && forall p :: 0 <= p < |d.table| ==> e.table[p] == d.table[p].(state := e.table[p].state)
  }

  /** Both transfer directions are empty, the completion queues are untouched. */
  ghost predicate TornDown(d: Dev, e: Dev) {
    && SameButStates(d, e)
    && (forall p :: 0 <= p < 2 * d.qmax ==> e.table[p].state.Disabled?)
    && (forall p :: 2 * d.qmax <= p < 3 * d.qmax ==> e.table[p] == d.table[p])
  }

  lemma {:induction false} FirstIdle(loads: seq<nat>, i: nat, n: nat)
    requires i < n <= |loads| && loads[i] == 0
    requires forall j :: 0 <= j < i ==> loads[j] > 0
    ensures FirstLeast(loads, n) == i
  {
    var v := FirstLeast(loads, n);
    assert loads[v] <= loads[i];
    if v > i {
      assert false;
    }
  }

  lemma {:induction false} ActiveSame(s: seq<Entry>, t: seq<Entry>, base: nat, n: nat)
    requires base + n <= |s| && |s| == |t|
    requires forall p :: base <= p < base + n ==> s[p] == t[p]
    ensures Active(s, base, n) == Active(t, base, n)
    decreases n
  {
    if n > 0 {
      ActiveSame(s, t, base, n - 1);
    }
  }

  lemma {:induction false} ActiveNone(s: seq<Entry>, base: nat, n: nat)
    requires base + n <= |s|
    requires forall p :: base <= p < base + n ==> s[p].state.Disabled?
    ensures Active(s, base, n) == ActiveSt(s, base, n) == 0
    decreases n
  {
    if n > 0 {
      ActiveNone(s, base, n - 1);
    }
  }

  /** Teardown returns the transfer counts to zero, but completion queues made on
      their own are neither stopped nor removed: the completion count is theirs. */
  lemma TeardownLeavesCmpt(d: Dev, e: Dev)
    requires Inv(d) && Inv(e) && TornDown(d, e)
    ensures e.h2c == e.c2h == 0
    ensures e.cmpt == Active(d.table, 2 * d.qmax, d.qmax)
    ensures e.h2c + e.c2h + e.cmpt == 0 <==> Active(d.table, 2 * d.qmax, d.qmax) == 0
  {
    ActiveNone(e.table, 0, d.qmax);
    ActiveNone(e.table, d.qmax, d.qmax);
    ActiveSame(d.table, e.table, 2 * d.qmax, d.qmax);
  }
}
