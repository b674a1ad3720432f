// Queues of one device: their states, which modes may share an index, the active
// counts, and the numeric handles that name them.
module Lifecycle {
  import opened Scatter
  import Bits

  const EPERM: int := 1
  const EIO: int := 5
  const EINVAL: int := 22
  const ERANGE: int := 34
  const NO_QUEUES_LEFT: int := 12

  datatype QType = H2C | C2H | CMPT
  datatype QState = Disabled | Enabled | Online
  /** `vec` is the interrupt vector of an online queue. */
  datatype Entry = Entry(state: QState, st: bool, aperture: nat, vec: nat)
  datatype Caps = Caps(st: bool, mm: bool, mmCmpt: bool)

  /** How the driver takes interrupts: not per vector (polled or legacy), one vector
      a queue, or every queue on the first vector (indirect and automatic modes). */
  datatype IrqMode = Uncounted | Direct | Shared

  /** A device: three tables of `qmax` entries one after another, the three active
      counts, and the number of queues on each vector, of which the first
      `dataVecs` carry data. */
  datatype Dev = Dev(qmax: nat, caps: Caps, table: seq<Entry>, h2c: nat, c2h: nat, cmpt: nat,
                     mode: IrqMode, dataVecs: nat, loads: seq<nat>)

  // ------------------------------------------------------------ handles

  function Base(qmax: nat, t: QType): nat {
    match t
    case H2C => 0
    case C2H => qmax
    case CMPT => 2 * qmax
  }

  /** The handle a successful add returns; also the entry's place in the tables. */
  function Handle(qmax: nat, t: QType, idx: nat): nat {
    idx + Base(qmax, t)
  }

  /** Handles are decoded by subtracting the table size up to twice. */
  function Decode(qmax: nat, id: nat): Option<(QType, nat)> {
    if id < qmax then Some((H2C, id))
    else if id - qmax < qmax then Some((C2H, id - qmax))
    else if id - qmax - qmax < qmax then Some((CMPT, id - qmax - qmax))
    else None
  }

  /** Decoding inverts encoding, in both directions, and nothing else decodes. */
  lemma DecodeInvertsHandle(qmax: nat, t: QType, idx: nat, id: nat)
    ensures idx < qmax ==> Decode(qmax, Handle(qmax, t, idx)) == Some((t, idx))
    ensures Decode(qmax, id) == Some((t, idx)) <==> idx < qmax && id == Handle(qmax, t, idx)
    ensures Decode(qmax, id).None? <==> id >= 3 * qmax
  {
  }

  // ------------------------------------------------------------ compatibility

  function At(d: Dev, t: QType, idx: nat): Entry
    requires |d.table| == 3 * d.qmax && idx < d.qmax
  {
    d.table[Handle(d.qmax, t, idx)]
  }

  predicate Present(e: Entry) {
    e.state != Disabled
  }

  /** The compatibility check as coded: presence bits and one shared mode bit. */
  function Usable(d: Dev, idx: nat, t: QType, st: bool): bool
    requires |d.table| == 3 * d.qmax && idx < d.qmax
  {
    var h, c, m := At(d, H2C, idx), At(d, C2H, idx), At(d, CMPT, idx);
    var mode := (Present(h) && h.st) || (Present(c) && c.st);
    match t
    case CMPT => !(Present(m) || mode)
    case H2C =>
      && !(st && Present(m))
      && !(st && Present(c) && !mode)
      && !(!st && Present(c) && mode)
      && !Present(h)
    case C2H =>
      && !(st && Present(m))
      && !(st && Present(h) && !mode)
      && !(!st && Present(h) && mode)
      && !Present(c)
  }

  /** Entries at one index agree: the two directions have one mode, and a
      completion queue never meets a streaming queue. */
  ghost predicate Compatible(d: Dev, idx: nat)
    requires |d.table| == 3 * d.qmax && idx < d.qmax
  {
    var h, c, m := At(d, H2C, idx), At(d, C2H, idx), At(d, CMPT, idx);
    && (Present(h) && Present(c) ==> h.st == c.st)
    && (Present(m) ==> !(Present(h) && h.st) && !(Present(c) && c.st))
    && (Present(m) ==> !m.st)
  }

  /** Number of entries among `n` from `base` on that are present, and of those
      that are present and streaming. */
  function Active(table: seq<Entry>, base: nat, n: nat): nat
    requires base + n <= |table|
  {
    if n == 0 then 0 else Active(table, base, n - 1) + if Present(table[base + n - 1]) then 1 else 0
  }

  function ActiveSt(table: seq<Entry>, base: nat, n: nat): nat
    requires base + n <= |table|
  {
    if n == 0 then 0
    else
      var e := table[base + n - 1];
      ActiveSt(table, base, n - 1) + if Present(e) && e.st then 1 else 0
  }

  /** Entries among the first `n` that are online, and those of them on vector `v`. */
  function OnlineCount(table: seq<Entry>, n: nat): nat
    requires n <= |table|
  {
    if n == 0 then 0 else OnlineCount(table, n - 1) + if table[n - 1].state.Online? then 1 else 0
  }

  function OnVector(table: seq<Entry>, n: nat, v: nat): nat
    requires n <= |table|
  {
    if n == 0 then 0
    else OnVector(table, n - 1, v) + if table[n - 1].state.Online? && table[n - 1].vec == v then 1 else 0
  }

  ghost predicate CountsMatch(d: Dev)
    requires |d.table| == 3 * d.qmax
  {
    && d.h2c == Active(d.table, 0, d.qmax)
    && d.c2h == Active(d.table, d.qmax, d.qmax)
    && d.cmpt == ActiveSt(d.table, d.qmax, d.qmax) + Active(d.table, 2 * d.qmax, d.qmax)
  }

  /** An online queue has passed the keyhole check and has a data vector. */
  ghost predicate OnlineOk(d: Dev, e: Entry) {
    e.state.Online? ==> Bits.ApertureOk(e.aperture) && (!d.mode.Uncounted? ==> e.vec < d.dataVecs)
  }

  ghost predicate LoadsMatch(d: Dev) {
    forall v :: 0 <= v < |d.loads| ==> d.loads[v] == OnVector(d.table, |d.table|, v)
  }

  /** Vectors are set up exactly in the modes that count queues on them. */
  ghost predicate VectorsOk(d: Dev) {
    if d.mode.Uncounted? then d.loads == [] else 0 < d.dataVecs <= |d.loads|
  }

  ghost predicate Inv(d: Dev) {
    && |d.table| == 3 * d.qmax
    && (forall i :: 0 <= i < d.qmax ==> Compatible(d, i))
    && CountsMatch(d)
    && (forall p :: 0 <= p < |d.table| ==> OnlineOk(d, d.table[p]))
    && VectorsOk(d)
    && LoadsMatch(d)
  }

  lemma {:induction false} ActiveUpdate(table: seq<Entry>, base: nat, n: nat, p: nat, e: Entry)
    requires base + n <= |table| && p < |table|
    ensures Active(table[p := e], base, n)
         == Active(table, base, n)
            + (if base <= p < base + n then (if Present(e) then 1 else 0) - (if Present(table[p]) then 1 else 0) else 0)
    decreases n
  {
    if n > 0 {
      ActiveUpdate(table, base, n - 1, p, e);
    }
  }

  lemma {:induction false} ActiveStUpdate(table: seq<Entry>, base: nat, n: nat, p: nat, e: Entry)
    requires base + n <= |table| && p < |table|
    ensures ActiveSt(table[p := e], base, n)
         == ActiveSt(table, base, n)
            + (if base <= p < base + n then
                 (if Present(e) && e.st then 1 else 0) - (if Present(table[p]) && table[p].st then 1 else 0) else 0)
    decreases n
  {
    if n > 0 {
      ActiveStUpdate(table, base, n - 1, p, e);
    }
  }

  lemma {:induction false} ActiveBelow(table: seq<Entry>, base: nat, n: nat, i: nat)
    requires base + n <= |table|
    ensures Active(table, base, n) <= n
    ensures i < n && !Present(table[base + i]) ==> Active(table, base, n) < n
    decreases n
  {
    if n > 0 {
      ActiveBelow(table, base, n - 1, i);
    }
  }

  /** Streaming C2H queues and completion queues exclude each other index by
      index, so an index with neither leaves room in the completion count. */
  lemma {:induction false} CmptBelow(d: Dev, n: nat, i: nat)
    requires |d.table| == 3 * d.qmax && n <= d.qmax
    requires forall j :: 0 <= j < d.qmax ==> Compatible(d, j)
    ensures ActiveSt(d.table, d.qmax, n) + Active(d.table, 2 * d.qmax, n) <= n
    ensures i < n && !(Present(At(d, C2H, i)) && At(d, C2H, i).st) && !Present(At(d, CMPT, i)) ==>
              ActiveSt(d.table, d.qmax, n) + Active(d.table, 2 * d.qmax, n) < n
    decreases n
  {
    if n > 0 {
      CmptBelow(d, n - 1, i);
      assert Compatible(d, n - 1);
      assert At(d, C2H, n - 1) == d.table[d.qmax + n - 1] && At(d, CMPT, n - 1) == d.table[2 * d.qmax + n - 1];
    }
  }

  lemma {:induction false} OnVectorUpdate(table: seq<Entry>, n: nat, v: nat, p: nat, e: Entry)
    requires n <= |table| && p < |table|
    ensures OnVector(table[p := e], n, v)
         == OnVector(table, n, v)
            + (if p < n then
                 (if e.state.Online? && e.vec == v then 1 else 0)
                 - (if table[p].state.Online? && table[p].vec == v then 1 else 0) else 0)
  {
    if n > 0 {
      OnVectorUpdate(table, n - 1, v, p, e);
    }
  }

  // ------------------------------------------------------------ vector choice

  /** The first of the least loaded among the first `n` vectors. */
  function FirstLeast(loads: seq<nat>, n: nat): (v: nat)
    requires 0 < n <= |loads|
    ensures v < n
    ensures forall j :: 0 <= j < n ==> loads[v] <= loads[j]
    ensures forall j :: 0 <= j < v ==> loads[v] < loads[j]
  {
    if n == 1 then 0
    else
      var w := FirstLeast(loads, n - 1);
      if loads[n - 1] < loads[w] then n - 1 else w
  }

  function VectorFor(d: Dev): nat
    requires VectorsOk(d)
  {
    if d.mode.Direct? then FirstLeast(d.loads, d.dataVecs) else 0
  }

  // ------------------------------------------------------------ steps

  function CountOf(d: Dev, t: QType): nat {
    match t
    case H2C => d.h2c
    case C2H => d.c2h
    case CMPT => d.cmpt
  }

  function Lower(n: nat): nat {
    if n == 0 then 0 else n - 1
  }

  function WithCount(d: Dev, t: QType, n: nat): Dev {
    match t
    case H2C => d.(h2c := n)
    case C2H => d.(c2h := n)
    case CMPT => d.(cmpt := n)
  }

  function SetEntry(d: Dev, p: nat, e: Entry): Dev
    requires p < |d.table|
  {
    d.(table := d.table[p := e])
  }

  /** What a device of these capabilities may be asked for. */
  predicate Supported(caps: Caps, t: QType, st: bool) {
    !(st && t.CMPT?) && !(t.CMPT? && !caps.mmCmpt) && (if st then caps.st else caps.mm)
  }

  /** Add a queue at an explicit index. The entry is enabled and configured before
      the counts are raised; when a count cannot be raised it stays enabled. */
  function AddStep(d: Dev, idx: nat, t: QType, st: bool, aperture: nat): (Dev, int)
    requires |d.table| == 3 * d.qmax
  {
    if !Supported(d.caps, t, st) || idx >= d.qmax then (d, -EINVAL)
    else if CountOf(d, t) >= d.qmax then (d, -EIO)
    else if !Usable(d, idx, t, st) then (d, -EPERM)
    else
      RaiseCounts(
        SetEntry(d, Handle(d.qmax, t, idx), At(d, t, idx).(state := Enabled, st := st, aperture := aperture)), t, st)
  }

  function RaiseCounts(d: Dev, t: QType, st: bool): (Dev, int) {
    if d.qmax < CountOf(d, t) + 1 then (d, -NO_QUEUES_LEFT)
    else
      var e := WithCount(d, t, CountOf(d, t) + 1);
      if !(st && t.C2H?) then (e, 0)
      else if e.qmax < e.cmpt + 1 then (d, -NO_QUEUES_LEFT)
      else (WithCount(e, CMPT, e.cmpt + 1), 0)
  }

  /** The place a handle names, if it is in range and holds a queue. */
  predicate Named(d: Dev, id: nat)
    requires |d.table| == 3 * d.qmax
  {
    id < 3 * d.qmax && Present(d.table[id])
  }

  function RemoveStep(d: Dev, id: nat): (Dev, int)
    requires |d.table| == 3 * d.qmax
  {
    if !Named(d, id) || !d.table[id].state.Enabled? then (d, -EINVAL)
    else
      var t := Decode(d.qmax, id).value.0;
      var f := WithCount(d, t, Lower(CountOf(d, t)));
      var g := if d.table[id].st && t.C2H? then WithCount(f, CMPT, Lower(f.cmpt)) else f;
      (SetEntry(g, id, d.table[id].(state := Disabled)), 0)
  }

  /** Start an added queue; `setup` is the result of allocating and programming it. */
  function StartStep(d: Dev, id: nat, setup: int): (Dev, int)
    requires |d.table| == 3 * d.qmax && VectorsOk(d)
  {
    if !Named(d, id) || !d.table[id].state.Enabled? then (d, -EINVAL)
    else if !Bits.ApertureOk(d.table[id].aperture) then (d, -ERANGE)
    else if setup < 0 then (d, setup)
    else if d.loads == [] then (SetEntry(d, id, d.table[id].(state := Online)), 0)
    else
      var v := VectorFor(d);
      (SetEntry(d.(loads := d.loads[v := d.loads[v] + 1]), id, d.table[id].(state := Online, vec := v)), 0)
  }

  function StopStep(d: Dev, id: nat): (Dev, int)
    requires |d.table| == 3 * d.qmax
  {
    if !Named(d, id) || !d.table[id].state.Online? then (d, -EINVAL)
    else
      var e := d.table[id];
      var f := if !d.mode.Uncounted? && e.vec < |d.loads|
               then d.(loads := d.loads[e.vec := Lower(d.loads[e.vec])]) else d;
      (SetEntry(f, id, e.(state := Enabled)), 0)
  }

  datatype Op =
    | Add(idx: nat, t: QType, st: bool, aperture: nat)
    | Remove(id: nat)
    | Start(id: nat, setup: int)
    | Stop(id: nat)

  function Apply(d: Dev, op: Op): (Dev, int)
    requires Inv(d)
  {
    match op
    case Add(idx, t, st, aperture) => AddStep(d, idx, t, st, aperture)
    case Remove(id) => RemoveStep(d, id)
    case Start(id, setup) => StartStep(d, id, setup)
    case Stop(id) => StopStep(d, id)
  }

  // ------------------------------------------------------------ one step

  /** What the check amounts to on a consistent table: the place is free, the other
      direction has the same mode, and streaming and completion queues stay apart. */
  ghost predicate Fits(d: Dev, idx: nat, t: QType, st: bool)
    requires |d.table| == 3 * d.qmax && idx < d.qmax
  {
    && !Present(At(d, t, idx))
    && (forall u :: u != t && Present(At(d, u, idx)) ==>
          if t.CMPT? then !At(d, u, idx).st else if u.CMPT? then !st else At(d, u, idx).st == st)
  }

  /** The coded check, with its one mode bit shared by both directions, decides
      exactly that. */
  lemma UsableIff(d: Dev, idx: nat, t: QType, st: bool)
    requires Inv(d) && idx < d.qmax
    ensures Usable(d, idx, t, st) <==> Fits(d, idx, t, st)
  {
    assert Compatible(d, idx);
  }

  /** How one table's count changes when the entry at `p` becomes `e`. */
  function Delta(d: Dev, p: nat, e: Entry, t: QType): int
    requires |d.table| == 3 * d.qmax && p < |d.table|
  {
    if Base(d.qmax, t) <= p < Base(d.qmax, t) + d.qmax
    then (if Present(e) then 1 else 0) - (if Present(d.table[p]) then 1 else 0)
    else 0
  }

  lemma CountsAfter(d: Dev, p: nat, e: Entry)
    requires |d.table| == 3 * d.qmax && p < |d.table|
    ensures var n := d.table[p := e];
            && Active(n, 0, d.qmax) == Active(d.table, 0, d.qmax) + Delta(d, p, e, H2C)
            && Active(n, d.qmax, d.qmax) == Active(d.table, d.qmax, d.qmax) + Delta(d, p, e, C2H)
            && ActiveSt(n, d.qmax, d.qmax) == ActiveSt(d.table, d.qmax, d.qmax)
                 + (if d.qmax <= p < 2 * d.qmax then
                      (if Present(e) && e.st then 1 else 0) - (if Present(d.table[p]) && d.table[p].st then 1 else 0)
                    else 0)
            && Active(n, 2 * d.qmax, d.qmax) == Active(d.table, 2 * d.qmax, d.qmax) + Delta(d, p, e, CMPT)
  {
    ActiveUpdate(d.table, 0, d.qmax, p, e);
    ActiveUpdate(d.table, d.qmax, d.qmax, p, e);
    ActiveStUpdate(d.table, d.qmax, d.qmax, p, e);
    ActiveUpdate(d.table, 2 * d.qmax, d.qmax, p, e);
  }

  lemma LoadsAfter(d: Dev, p: nat, e: Entry)
    requires LoadsMatch(d) && p < |d.table|
    ensures forall v :: 0 <= v < |d.loads| ==>
              OnVector(d.table[p := e], |d.table|, v)
                + (if d.table[p].state.Online? && d.table[p].vec == v then 1 else 0)
                == d.loads[v] + (if e.state.Online? && e.vec == v then 1 else 0)
  {
    forall v | 0 <= v < |d.loads|
      ensures OnVector(d.table[p := e], |d.table|, v)
                + (if d.table[p].state.Online? && d.table[p].vec == v then 1 else 0)
                == d.loads[v] + (if e.state.Online? && e.vec == v then 1 else 0)
    {
      OnVectorUpdate(d.table, |d.table|, v, p, e);
    }
  }

  /** Replacing one entry by one of the same presence and mode, or by one that fits,
      leaves every index compatible. */
  lemma CompatibleAfter(d: Dev, p: nat, e: Entry)
    requires Inv(d) && p < |d.table|
    requires var q := Decode(d.qmax, p).value;
             || !Present(e)
             || (Present(d.table[p]) && e.st == d.table[p].st)
             || (Fits(d, q.1, q.0, e.st) && !(e.st && q.0.CMPT?))
    ensures forall i :: 0 <= i < d.qmax ==> Compatible(SetEntry(d, p, e), i)
  {
    var (t, idx) := Decode(d.qmax, p).value;
    DecodeInvertsHandle(d.qmax, t, idx, p);
    var d' := SetEntry(d, p, e);
    forall i | 0 <= i < d.qmax
      ensures Compatible(d', i)
    {
      assert Compatible(d, i);
      assert forall u :: At(d', u, i) == if u == t && i == idx then e else At(d, u, i);
    }
  }

  /** Room at the index means room in the counts. */
  lemma RoomToAdd(d: Dev, idx: nat, t: QType, st: bool)
    requires Inv(d) && Supported(d.caps, t, st) && idx < d.qmax && Fits(d, idx, t, st)
    ensures CountOf(d, t) < d.qmax
    ensures st && t.C2H? ==> d.cmpt < d.qmax
  {
    assert Compatible(d, idx);
    ActiveBelow(d.table, Base(d.qmax, t), d.qmax, idx);
    CmptBelow(d, d.qmax, idx);
    var c, m := At(d, C2H, idx), At(d, CMPT, idx);
  }

  /** An add succeeds exactly when it is supported, in range and fits. The counts
      never stand in the way: with room at the index they are below the maximum,
      and no accepted add leaves an enabled but uncounted queue behind. */
  lemma AddSucceedsIff(d: Dev, idx: nat, t: QType, st: bool, aperture: nat)
    requires Inv(d)
    ensures var (d', rv) := AddStep(d, idx, t, st, aperture);
            && (rv == 0 <==> Supported(d.caps, t, st) && idx < d.qmax && Fits(d, idx, t, st))
            && rv != -NO_QUEUES_LEFT
            && (rv != 0 ==> d' == d)
  {
    hide Fits, Usable;
    if Supported(d.caps, t, st) && idx < d.qmax {
      UsableIff(d, idx, t, st);
      if Fits(d, idx, t, st) {
        RoomToAdd(d, idx, t, st);
      }
    }
  }

  lemma AddKeeps(d: Dev, idx: nat, t: QType, st: bool, aperture: nat)
    requires Inv(d)
    ensures Inv(AddStep(d, idx, t, st, aperture).0)
  {
    hide Usable, Fits, Compatible, Active, ActiveSt, OnVector, Bits.ApertureOk;
    AddSucceedsIff(d, idx, t, st, aperture);
    if Supported(d.caps, t, st) && idx < d.qmax && Fits(d, idx, t, st) {
      var p := Handle(d.qmax, t, idx);
      var e := At(d, t, idx).(state := Enabled, st := st, aperture := aperture);
      AddParts(d, idx, t, st, e);
      var d' := AddStep(d, idx, t, st, aperture).0;
      assert d'.table == d.table[p := e];
      CompatibleSame(SetEntry(d, p, e), d');
    }
  }

  lemma CompatibleSame(d: Dev, d': Dev)
    requires |d.table| == 3 * d.qmax && d'.table == d.table && d'.qmax == d.qmax
    requires forall i :: 0 <= i < d.qmax ==> Compatible(d, i)
    ensures forall i :: 0 <= i < d.qmax ==> Compatible(d', i)
  {
    forall i | 0 <= i < d.qmax
      ensures Compatible(d', i)
    {
      assert Compatible(d, i);
    }
  }

  lemma AddParts(d: Dev, idx: nat, t: QType, st: bool, e: Entry)
    requires Inv(d) && Supported(d.caps, t, st) && idx < d.qmax && Fits(d, idx, t, st)
    requires e.state.Enabled? && e.st == st
    ensures var p := Handle(d.qmax, t, idx);
            var n := d.table[p := e];
            && (forall i :: 0 <= i < d.qmax ==> Compatible(SetEntry(d, p, e), i))
            && Active(n, 0, d.qmax) == Active(d.table, 0, d.qmax) + (if t.H2C? then 1 else 0)
            && Active(n, d.qmax, d.qmax) == Active(d.table, d.qmax, d.qmax) + (if t.C2H? then 1 else 0)
            && Active(n, 2 * d.qmax, d.qmax) == Active(d.table, 2 * d.qmax, d.qmax) + (if t.CMPT? then 1 else 0)
            && ActiveSt(n, d.qmax, d.qmax) == ActiveSt(d.table, d.qmax, d.qmax) + (if st && t.C2H? then 1 else 0)
            && (forall v :: 0 <= v < |d.loads| ==> OnVector(n, |d.table|, v) == d.loads[v])
  {
    var p := Handle(d.qmax, t, idx);
    assert !Present(d.table[p]);
    DecodeInvertsHandle(d.qmax, t, idx, p);
    CompatibleAfter(d, p, e);
    CountsAfter(d, p, e);
    LoadsAfter(d, p, e);
  }

  lemma RemoveKeeps(d: Dev, id: nat)
    requires Inv(d)
    ensures Inv(RemoveStep(d, id).0)
  {
    hide Fits, Compatible, Active, ActiveSt, OnVector, Bits.ApertureOk;
    if Named(d, id) && d.table[id].state.Enabled? {
      var e := d.table[id].(state := Disabled);
      CompatibleAfter(d, id, e);
      CountsAfter(d, id, e);
      LoadsAfter(d, id, e);
      var d' := RemoveStep(d, id).0;
      assert d'.table == d.table[id := e];
      CompatibleSame(SetEntry(d, id, e), d');
    }
  }

  lemma StartKeeps(d: Dev, id: nat, setup: int)
    requires Inv(d)
    ensures Inv(StartStep(d, id, setup).0)
  {
    hide Fits, Compatible, Active, ActiveSt, OnVector, Bits.ApertureOk;
    var (d', rv) := StartStep(d, id, setup);
    if rv == 0 {
      var e := d'.table[id];
      CompatibleAfter(d, id, e);
      CountsAfter(d, id, e);
      LoadsAfter(d, id, e);
      CompatibleSame(SetEntry(d, id, e), d');
    }
  }

  lemma StopKeeps(d: Dev, id: nat)
    requires Inv(d)
    ensures Inv(StopStep(d, id).0)
  {
    hide Fits, Compatible, Active, ActiveSt, OnVector, Bits.ApertureOk;
    if Named(d, id) && d.table[id].state.Online? {
      var e := d.table[id].(state := Enabled);
      CompatibleAfter(d, id, e);
      CountsAfter(d, id, e);
      LoadsAfter(d, id, e);
      var d' := StopStep(d, id).0;
      CompatibleSame(SetEntry(d, id, e), d');
    }
  }

  /** No count is ever lowered from zero: a queue that can be removed or stopped is
      in the counts it will be taken from. */
  lemma CountsNeverFloor(d: Dev, id: nat)
    requires Inv(d) && Named(d, id)
    ensures CountOf(d, Decode(d.qmax, id).value.0) > 0
    ensures Decode(d.qmax, id).value.0.C2H? && d.table[id].st ==> d.cmpt > 0
    ensures d.table[id].state.Online? && !d.mode.Uncounted? ==>
              d.table[id].vec < |d.loads| && d.loads[d.table[id].vec] > 0
  {
    hide Compatible, Active, ActiveSt, OnVector, Bits.ApertureOk;
    var e := d.table[id].(state := Disabled);
    CountsAfter(d, id, e);
    LoadsAfter(d, id, e);
    assert OnlineOk(d, d.table[id]);
  }

  /** Removing a queue just added gives back every count, every vector load and every
      other entry; only the settings left in the disabled entry differ. */
  lemma RemoveUndoesAdd(d: Dev, idx: nat, t: QType, st: bool, aperture: nat)
    requires Inv(d) && AddStep(d, idx, t, st, aperture).1 == 0
    ensures var p := Handle(d.qmax, t, idx);
            var (e, rv) := RemoveStep(AddStep(d, idx, t, st, aperture).0, p);
            && rv == 0 && p < |d.table|
            && e == d.(table := d.table[p := d.table[p].(st := st, aperture := aperture)])
  {
    AddSucceedsIff(d, idx, t, st, aperture);
    var p := Handle(d.qmax, t, idx);
    DecodeInvertsHandle(d.qmax, t, idx, p);
    var (e, rv) := RemoveStep(AddStep(d, idx, t, st, aperture).0, p);
    assert e.table == d.table[p := d.table[p].(st := st, aperture := aperture)];
  }

  // ------------------------------------------------------------ runs

  /** The device after a run of calls, whatever each of them returned. */
  function After(d: Dev, ops: seq<Op>): (d': Dev)
    requires Inv(d)
    ensures Inv(d')
    ensures d'.qmax == d.qmax && d'.caps == d.caps && d'.mode == d.mode && d'.dataVecs == d.dataVecs
            && |d'.loads| == |d.loads|
    decreases |ops|
  {
    if |ops| == 0 then d
    else
      ApplyKeeps(d, ops[0]);
      After(Apply(d, ops[0]).0, ops[1..])
  }

  lemma ApplyKeeps(d: Dev, op: Op)
    requires Inv(d)
    ensures var d' := Apply(d, op).0;
            && Inv(d') && d'.qmax == d.qmax && d'.caps == d.caps && d'.mode == d.mode
            && d'.dataVecs == d.dataVecs && |d'.loads| == |d.loads|
  {
    hide Usable, Fits, Compatible, Active, ActiveSt, OnVector, Bits.ApertureOk;
    match op
    case Add(idx, t, st, aperture) => AddKeeps(d, idx, t, st, aperture);
    case Remove(id) => RemoveKeeps(d, id);
    case Start(id, setup) => StartKeeps(d, id, setup);
    case Stop(id) => StopKeeps(d, id);
  }

  /** A device as initialised: every entry disabled, nothing counted. */
  predicate Fresh(d: Dev) {
    && |d.table| == 3 * d.qmax
    && (forall p :: 0 <= p < |d.table| ==> d.table[p].state.Disabled?)
    && d.h2c == d.c2h == d.cmpt == 0
    && (if d.mode.Uncounted? then d.loads == [] else 0 < d.dataVecs <= |d.loads|)
    && (forall v :: 0 <= v < |d.loads| ==> d.loads[v] == 0)
  }

  lemma {:induction false} NoneActive(table: seq<Entry>, base: nat, n: nat)
    requires base + n <= |table|
    requires forall p :: 0 <= p < |table| ==> table[p].state.Disabled?
    ensures Active(table, base, n) == ActiveSt(table, base, n) == 0
    decreases n
  {
    if n > 0 {
      NoneActive(table, base, n - 1);
    }
  }

  lemma {:induction false} NoneOnVector(table: seq<Entry>, n: nat, v: nat)
    requires n <= |table|
    requires forall p :: 0 <= p < |table| ==> table[p].state.Disabled?
    ensures OnVector(table, n, v) == 0
  {
    if n > 0 {
      NoneOnVector(table, n - 1, v);
    }
  }

  lemma FreshInv(d: Dev)
    requires Fresh(d)
    ensures Inv(d)
  {
    NoneActive(d.table, 0, d.qmax);
    NoneActive(d.table, d.qmax, d.qmax);
    NoneActive(d.table, 2 * d.qmax, d.qmax);
    forall v | 0 <= v < |d.loads|
      ensures d.loads[v] == OnVector(d.table, |d.table|, v)
    {
      NoneOnVector(d.table, |d.table|, v);
    }
  }

  /** Over every run of adds, removes, starts and stops from an initialised device:
      the directions at an index agree, no completion queue meets a streaming one,
      and each count is the number of queues it stands for. */
  lemma LifecycleSafety(d: Dev, ops: seq<Op>)
    requires Fresh(d)
    ensures Inv(d)
    ensures var e := After(d, ops);
            && |e.table| == 3 * e.qmax
            && (forall i :: 0 <= i < e.qmax ==> Compatible(e, i))
            && CountsMatch(e)
            && (forall p :: 0 <= p < |e.table| && e.table[p].state.Online? ==> Bits.ApertureOk(e.table[p].aperture))
  {
    FreshInv(d);
    var e := After(d, ops);
    forall p | 0 <= p < |e.table| && e.table[p].state.Online?
      ensures Bits.ApertureOk(e.table[p].aperture)
    {
      assert OnlineOk(e, e.table[p]);
    }
  }

  // ------------------------------------------------------------ vector loads

  function SumLoads(loads: seq<nat>, n: nat): nat
    requires n <= |loads|
  {
    if n == 0 then 0 else SumLoads(loads, n - 1) + loads[n - 1]
  }

  /** Number of online entries among the first `n` whose vector is below `k`. */
  function OnVectorsBelow(table: seq<Entry>, n: nat, k: nat): nat
    requires n <= |table|
  {
    if n == 0 then 0
    else OnVectorsBelow(table, n - 1, k) + if table[n - 1].state.Online? && table[n - 1].vec < k then 1 else 0
  }

  lemma {:induction false} OneMoreVector(table: seq<Entry>, n: nat, k: nat)
    requires n <= |table|
    ensures OnVectorsBelow(table, n, k + 1) == OnVectorsBelow(table, n, k) + OnVector(table, n, k)
  {
    if n > 0 {
      OneMoreVector(table, n - 1, k);
    }
  }

  lemma {:induction false} NoVectorBelowZero(table: seq<Entry>, n: nat)
    requires n <= |table|
    ensures OnVectorsBelow(table, n, 0) == 0
  {
    if n > 0 {
      NoVectorBelowZero(table, n - 1);
    }
  }

  lemma {:induction false} AllVectorsBelow(table: seq<Entry>, n: nat, k: nat)
    requires n <= |table|
    requires forall p :: 0 <= p < n && table[p].state.Online? ==> table[p].vec < k
    ensures OnVectorsBelow(table, n, k) == OnlineCount(table, n)
  {
    if n > 0 {
      AllVectorsBelow(table, n - 1, k);
    }
  }

  lemma {:induction false} SumIsBelow(d: Dev, n: nat)
    requires LoadsMatch(d) && n <= |d.loads|
    ensures SumLoads(d.loads, n) == OnVectorsBelow(d.table, |d.table|, n)
  {
    if n == 0 {
      NoVectorBelowZero(d.table, |d.table|);
    } else {
      SumIsBelow(d, n - 1);
      OneMoreVector(d.table, |d.table|, n - 1);
    }
  }

  /** Over starts and stops the vector loads sum to the number of online queues. */
  lemma LoadsSumToOnline(d: Dev, ops: seq<Op>)
    requires Fresh(d) && !d.mode.Uncounted?
    ensures Inv(d)
    ensures var e := After(d, ops); SumLoads(e.loads, |e.loads|) == OnlineCount(e.table, |e.table|)
  {
    FreshInv(d);
    var e := After(d, ops);
    SumIsBelow(e, |e.loads|);
    forall p | 0 <= p < |e.table| && e.table[p].state.Online?
      ensures e.table[p].vec < |e.loads|
    {
      assert OnlineOk(e, e.table[p]);
    }
    AllVectorsBelow(e.table, |e.table|, |e.loads|);
  }

  /** Data vectors carry loads that differ by at most one. */
  ghost predicate Level(d: Dev)
    requires d.dataVecs <= |d.loads|
  {
    forall v, w :: 0 <= v < d.dataVecs && 0 <= w < d.dataVecs ==> d.loads[v] <= d.loads[w] + 1
  }

  lemma ApplyLevel(d: Dev, op: Op)
    requires Inv(d) && d.mode.Direct? && Level(d) && !op.Stop?
    ensures var e := Apply(d, op).0; d.dataVecs <= |e.loads| && e.dataVecs == d.dataVecs && Level(e)
  {
    hide Usable, Fits, Compatible, CountsMatch, LoadsMatch, OnlineOk;
    if op.Start? {
      var v := VectorFor(d);
      assert forall w :: 0 <= w < d.dataVecs ==> d.loads[v] <= d.loads[w];
    }
  }

  /** In direct mode a run without stops keeps the loads within one of each other. */
  lemma {:induction false} StartsStayLevel(d: Dev, ops: seq<Op>)
    requires Inv(d) && d.mode.Direct? && Level(d)
    requires forall i :: 0 <= i < |ops| ==> !ops[i].Stop?
    ensures var e := After(d, ops); e.dataVecs <= |e.loads| && Level(e)
    decreases |ops|
  {
    hide Level, Apply;
    if |ops| > 0 {
      ApplyLevel(d, ops[0]);
      ApplyKeeps(d, ops[0]);
      StartsStayLevel(Apply(d, ops[0]).0, ops[1..]);
    }
  }

  /** No data vector carries more queues than that of the queue about to be stopped. */
  ghost predicate FromFullest(d: Dev, id: nat)
    requires Inv(d) && d.mode.Direct?
  {
    Named(d, id) && d.table[id].state.Online? ==>
      OnlineOk(d, d.table[id]) && forall w :: 0 <= w < d.dataVecs ==> d.loads[w] <= d.loads[d.table[id].vec]
  }

  /** A stop keeps the loads within one of each other exactly when it takes a queue off
      a vector that carries the most. */
  lemma StopLevelIff(d: Dev, id: nat)
    requires Inv(d) && d.mode.Direct? && Level(d)
    ensures var e := StopStep(d, id).0;
            d.dataVecs <= |e.loads| && e.dataVecs == d.dataVecs && (Level(e) <==> FromFullest(d, id))
  {
    hide Compatible, CountsMatch, LoadsMatch;
    if Named(d, id) && d.table[id].state.Online? {
      CountsNeverFloor(d, id);
      assert OnlineOk(d, d.table[id]);
      var e, v := StopStep(d, id).0, d.table[id].vec;
      assert e.loads == d.loads[v := d.loads[v] - 1];
      if Level(e) {
        forall w | 0 <= w < d.dataVecs
          ensures d.loads[w] <= d.loads[v]
        {
          assert e.loads[w] <= e.loads[v] + 1;
        }
      }
    }
  }

  /** The loads are level before and after each call of a run. */
  ghost predicate LevelThroughout(d: Dev, ops: seq<Op>)
    requires Inv(d)
    decreases |ops|
  {
    && d.dataVecs <= |d.loads| && Level(d)
    && (|ops| > 0 ==> Inv(Apply(d, ops[0]).0) && LevelThroughout(Apply(d, ops[0]).0, ops[1..]))
  }

  /** Each stop of a run takes a queue off a fullest vector. */
  ghost predicate StopsFromFullest(d: Dev, ops: seq<Op>)
    requires Inv(d) && d.mode.Direct?
    decreases |ops|
  {
    |ops| > 0 ==>
      && (ops[0].Stop? ==> FromFullest(d, ops[0].id))
      && var e := Apply(d, ops[0]).0;
         Inv(e) && e.mode.Direct? && StopsFromFullest(e, ops[1..])
  }

  /** In direct mode a run keeps the loads within one of each other throughout exactly
      when all its stops take queues off fullest vectors. */
  lemma {:induction false} LevelIff(d: Dev, ops: seq<Op>)
    requires Inv(d) && d.mode.Direct? && d.dataVecs <= |d.loads| && Level(d)
    ensures LevelThroughout(d, ops) <==> StopsFromFullest(d, ops)
    decreases |ops|
  {
    hide Inv, Level, Apply, FromFullest;
    if |ops| > 0 {
      var e := Apply(d, ops[0]).0;
      ApplyKeeps(d, ops[0]);
      if ops[0].Stop? {
        StopLevelIff(d, ops[0].id);
        ApplyStop(d, ops[0].id);
      } else {
        ApplyLevel(d, ops[0]);
      }
      if e.dataVecs <= |e.loads| && Level(e) {
        LevelIff(e, ops[1..]);
      }
    }
  }

  lemma ApplyStop(d: Dev, id: nat)
    requires Inv(d)
    ensures Apply(d, Stop(id)) == StopStep(d, id)
  {
  }

  /** The initialised device of the run below. */
  function TwoVectors(): Dev {
    var e := Entry(Disabled, false, 0, 0);
    Dev(1, Caps(true, true, true), [e, e, e], 0, 0, 0, Direct, 2, [0, 0])
  }

  /** Three queues started on two vectors, and the one alone on its vector stopped. */
  function ThreeThenStop(): seq<Op> {
    [Add(0, H2C, false, 0), Add(0, C2H, false, 0), Add(0, CMPT, false, 0),
     Start(0, 0), Start(1, 0), Start(2, 0), Stop(1)]
  }

  lemma ApplyIs(d: Dev, op: Op, rest: seq<Op>)
    requires Inv(d)
    ensures Inv(Apply(d, op).0)
    ensures After(d, [op] + rest) == After(Apply(d, op).0, rest)
  {
    ApplyKeeps(d, op);
    assert ([op] + rest)[1..] == rest;
  }

  lemma AddsRun()
    ensures Fresh(TwoVectors()) && Inv(TwoVectors())
    ensures var e := Entry(Enabled, false, 0, 0);
            var d := Dev(1, Caps(true, true, true), [e, e, e], 1, 1, 1, Direct, 2, [0, 0]);
            Inv(d) && After(TwoVectors(), ThreeThenStop()) == After(d, ThreeThenStop()[3..])
  {
    hide Inv, After, Apply;
    var d0, ops := TwoVectors(), ThreeThenStop();
    var off, on := Entry(Disabled, false, 0, 0), Entry(Enabled, false, 0, 0);
    FreshInv(d0);
    var d1 := d0.(table := [on, off, off], h2c := 1);
    var d2 := d1.(table := [on, on, off], c2h := 1);
    var d3 := d2.(table := [on, on, on], cmpt := 1);
    ApplyIs(d0, ops[0], ops[1..]);
    AddFirst(d0, H2C, d1);
    ApplyIs(d1, ops[1], ops[2..]);
    AddFirst(d1, C2H, d2);
    ApplyIs(d2, ops[2], ops[3..]);
    AddFirst(d2, CMPT, d3);
    assert ops == [ops[0]] + ops[1..] && ops[1..] == [ops[1]] + ops[2..] && ops[2..] == [ops[2]] + ops[3..];
  }

  /** Adding a memory-mapped queue to a device of one index. */
  lemma AddFirst(d: Dev, t: QType, e: Dev)
    requires Inv(d) && d.qmax == 1 && d.caps == Caps(true, true, true) && |d.table| == 3 && CountOf(d, t) == 0
    requires forall u :: At(d, u, 0) == Entry(if CountOf(d, u) == 0 then Disabled else Enabled, false, 0, 0)
    requires e == WithCount(SetEntry(d, Handle(1, t, 0), Entry(Enabled, false, 0, 0)), t, 1)
    ensures Apply(d, Add(0, t, false, 0)).0 == e
  {
    hide Inv;
  }

  /** From an initialised device, a run whose last call is a stop that leaves one vector
      with two queues and the other with none. */
  lemma StopsUnbalance()
    ensures Fresh(TwoVectors()) && Inv(TwoVectors())
    ensures var e := After(TwoVectors(), ThreeThenStop());
            e.dataVecs <= |e.loads| && e.loads == [2, 0] && !Level(e)
  {
    hide Inv, After;
    AddsRun();
    var ops := ThreeThenStop()[3..];
    var on := Entry(Enabled, false, 0, 0);
    var d3 := Dev(1, Caps(true, true, true), [on, on, on], 1, 1, 1, Direct, 2, [0, 0]);
    StartsRun(d3, ops);
    var e := After(d3, ops);
    assert e.loads[0] > e.loads[1] + 1;
  }

  lemma StartsRun(d3: Dev, ops: seq<Op>)
    requires ops == [Start(0, 0), Start(1, 0), Start(2, 0), Stop(1)] && Inv(d3)
    requires var on := Entry(Enabled, false, 0, 0);
             d3 == Dev(1, Caps(true, true, true), [on, on, on], 1, 1, 1, Direct, 2, [0, 0])
    ensures After(d3, ops).loads == [2, 0] && After(d3, ops).dataVecs == 2
  {
    hide Inv, Apply, After;
    var on, x, y := Entry(Enabled, false, 0, 0), Entry(Online, false, 0, 0), Entry(Online, false, 0, 1);
    var d4 := d3.(table := [x, on, on], loads := [1, 0]);
    var d5 := d4.(table := [x, y, on], loads := [1, 1]);
    var d6 := d5.(table := [x, y, x], loads := [2, 1]);
    var d7 := d6.(table := [x, y.(state := Enabled), x], loads := [2, 0]);
    ApplyIs(d3, ops[0], ops[1..]);
    StartLeast(d3, 0, 0, d4);
    ApplyIs(d4, ops[1], ops[2..]);
    StartLeast(d4, 1, 1, d5);
    ApplyIs(d5, ops[2], ops[3..]);
    StartLeast(d5, 2, 0, d6);
    ApplyIs(d6, ops[3], []);
    StopSecond(d6, d7);
    AfterNothing(d7);
    assert ops == [ops[0]] + ops[1..] && ops[1..] == [ops[1]] + ops[2..] && ops[2..] == [ops[2]] + ops[3..];
    assert ops[3..] == [ops[3]] + [];
  }

  lemma AfterNothing(d: Dev)
    requires Inv(d)
    ensures After(d, []) == d
  {
  }

  /** Starting a queue puts it on the less loaded of two vectors. */
  lemma StartLeast(d: Dev, id: nat, v: nat, e: Dev)
    requires Inv(d) && d.mode == Direct && d.dataVecs == 2 && |d.loads| == 2 && id < |d.table| == 3
    requires d.table[id] == Entry(Enabled, false, 0, 0) && v == if d.loads[1] < d.loads[0] then 1 else 0
    requires d.qmax == 1
    requires e == SetEntry(d.(loads := d.loads[v := d.loads[v] + 1]), id, Entry(Online, false, 0, v))
    ensures Apply(d, Start(id, 0)).0 == e
  {
    hide Inv;
    LeastOfTwo(d.loads);
  }

  lemma StopSecond(d: Dev, e: Dev)
    requires Inv(d) && d.mode == Direct && d.loads == [2, 1] && |d.table| == 3 && d.qmax == 1
    requires d.table[1] == Entry(Online, false, 0, 1)
    requires e == SetEntry(d.(loads := [2, 0]), 1, Entry(Enabled, false, 0, 1))
    ensures Apply(d, Stop(1)).0 == e
  {
    hide Inv;
  }

  lemma LeastOfTwo(loads: seq<nat>)
    requires |loads| == 2
    ensures FirstLeast(loads, 2) == if loads[1] < loads[0] then 1 else 0
  {
  }
}
