// What one request means: the transfers it is cut into, independently of when
// ring space lets them be issued.
module Plan {
  import opened Scatter
  import Bits

  /** Largest length one descriptor can carry: 28 bits. */
  const BLEN_MAX: nat := 0xFFF_FFFF
  const U32: nat := 0x1_0000_0000
  const U64: nat := 0x1_0000_0000_0000_0000

  /** A request as its submitter filled it in. */
  datatype Request = Request(epAddr: nat, count: nat, sgl: seq<Sg>, callback: bool)

  /** Move `len` bytes between bus address `host` and device address `dev`. */
  datatype Xfer = Xfer(host: nat, dev: nat, len: nat)

  /** The queue's aperture: the configured keyhole, or the descriptor limit. */
  function Aperture(keyhole: nat): (a: nat)
    ensures a > 0
  {
    if keyhole != 0 then keyhole else BLEN_MAX
  }

  /** What the engine asks of every request: the entries add up to the count,
      none is empty (except the single entry of an empty request), and the
      device addresses do not run past 64 bits. */
  ghost predicate WellFormed(r: Request, keyhole: nat) {
    && Total(r.sgl) == r.count < U32
    && (if r.count == 0 then |r.sgl| == 1 else NonEmpty(r.sgl))
    && r.epAddr + (if keyhole != 0 then keyhole else r.count) <= U64
  }

  /** The entries of a request whose buffers were mapped do not run past 64 bits. */
  ghost predicate Addressed(r: Request) {
    forall i :: 0 <= i < |r.sgl| ==> r.sgl[i].dma + r.sgl[i].len <= U64
  }

  /** Device address of byte `k`: linear, or wrapped inside the keyhole. */
  function DevAddr(r: Request, keyhole: nat, k: nat): nat {
    r.epAddr + if keyhole != 0 then k % keyhole else k
  }

  function Min(x: nat, y: nat): (m: nat) {
    if x <= y then x else y
  }

  /** Length of the transfer that starts at byte `o`: it ends at the end of the
      entry, at the aperture size, or at the end of the keyhole. */
  function StepLen(r: Request, keyhole: nat, o: nat): (n: nat)
    requires o < r.count == Total(r.sgl)
    ensures 0 < n <= r.count - o && n <= Aperture(keyhole)
  {
    var i := EntryOf(r.sgl, o, |r.sgl|);
    PrefixMonotone(r.sgl, i + 1, |r.sgl|);
    var inEntry := Prefix(r.sgl, i + 1) - o;
    if keyhole != 0 then Min(inEntry, keyhole - o % keyhole) else Min(inEntry, BLEN_MAX)
  }

  function StepAt(r: Request, keyhole: nat, o: nat): Xfer
    requires o < r.count == Total(r.sgl)
  {
    Xfer(HostAddr(r.sgl, o), DevAddr(r, keyhole, o), StepLen(r, keyhole, o))
  }

  /** Transfers that remain from byte `o` on. */
  function From(r: Request, keyhole: nat, o: nat): seq<Xfer>
    requires r.count == Total(r.sgl)
    decreases r.count - o
  {
    if o >= r.count then []
    else [StepAt(r, keyhole, o)] + From(r, keyhole, o + StepLen(r, keyhole, o))
  }

  /** All transfers of a request; an empty request still costs one. */
  function Whole(r: Request, keyhole: nat): (xs: seq<Xfer>)
    requires r.count == Total(r.sgl)
    ensures r.count == 0 && |r.sgl| > 0 ==> |xs| == 1
    ensures r.count > 0 ==> |xs| > 0
  {
    if r.count > 0 then From(r, keyhole, 0)
    else if |r.sgl| > 0 then [Xfer(r.sgl[0].dma, r.epAddr, 0)]
    else []
  }

  function SumLen(xs: seq<Xfer>): nat {
    if |xs| == 0 then 0 else SumLen(xs[..|xs| - 1]) + xs[|xs| - 1].len
  }

  /** Byte moves, as pairs of a bus and a device address. */
  function Moves(xs: seq<Xfer>): seq<(nat, nat)> {
    if |xs| == 0 then []
    else Moves(xs[..|xs| - 1]) + MovesOf(xs[|xs| - 1])
  }

  function MovesOf(x: Xfer): (m: seq<(nat, nat)>)
    ensures |m| == x.len
  {
    seq(x.len, j => (x.host + j, x.dev + j))
  }

  /** Byte `k` of a request, as the pair of addresses it must move between. */
  function ByteMove(r: Request, keyhole: nat, k: nat): (nat, nat)
    requires k < Total(r.sgl)
  {
    (HostAddr(r.sgl, k), DevAddr(r, keyhole, k))
  }

  lemma {:induction false} SumLenConcat(xs: seq<Xfer>, ys: seq<Xfer>)
    ensures SumLen(xs + ys) == SumLen(xs) + SumLen(ys)
  {
    if |ys| == 0 {
      assert xs + ys == xs;
    } else {
      assert (xs + ys)[..|xs + ys| - 1] == xs + ys[..|ys| - 1];
      SumLenConcat(xs, ys[..|ys| - 1]);
    }
  }

  lemma {:induction false} MovesConcat(xs: seq<Xfer>, ys: seq<Xfer>)
    ensures Moves(xs + ys) == Moves(xs) + Moves(ys)
  {
    hide Moves, MovesOf;
    MovesUnfold(ys);
    if |ys| == 0 {
      assert xs + ys == xs;
    } else {
      MovesUnfold(xs + ys);
      assert (xs + ys)[..|xs + ys| - 1] == xs + ys[..|ys| - 1];
      MovesConcat(xs, ys[..|ys| - 1]);
    }
  }

  lemma MovesUnfold(xs: seq<Xfer>)
    ensures Moves(xs) == if |xs| == 0 then [] else Moves(xs[..|xs| - 1]) + MovesOf(xs[|xs| - 1])
  {
  }

  /** Cutting the plan anywhere and restarting from the byte offset reached
      gives back the rest of the plan. */
  lemma {:induction false} ResumeFrom(r: Request, keyhole: nat, o: nat, n: nat)
    requires o <= r.count == Total(r.sgl)
    requires n <= |From(r, keyhole, o)|
    ensures o + SumLen(From(r, keyhole, o)[..n]) <= r.count
    ensures From(r, keyhole, o + SumLen(From(r, keyhole, o)[..n])) == From(r, keyhole, o)[n..]
    decreases n
  {
    hide StepLen, HostAddr, EntryOf, Prefix, DevAddr;
    var xs := From(r, keyhole, o);
    if n > 0 {
      ResumeFrom(r, keyhole, o, n - 1);
      var o' := o + SumLen(xs[..n - 1]);
      assert xs[..n][..n - 1] == xs[..n - 1];
      assert xs[n - 1..][0] == xs[n - 1];
      assert xs[n..] == xs[n - 1..][1..];
      assert o' + SumLen(xs[..n]) - SumLen(xs[..n - 1]) == o' + StepLen(r, keyhole, o');
    }
  }

  /** The next transfer of a plan resumed after `n` of them starts at the byte
      offset the first `n` reached. */
  lemma StepOfPlan(r: Request, keyhole: nat, o: nat, n: nat)
    requires o <= r.count == Total(r.sgl)
    requires n < |From(r, keyhole, o)|
    ensures var at := o + SumLen(From(r, keyhole, o)[..n]);
            at < r.count && From(r, keyhole, o)[n] == StepAt(r, keyhole, at)
  {
    ResumeFrom(r, keyhole, o, n);
    assert From(r, keyhole, o)[n] == From(r, keyhole, o)[n..][0];
  }

  /** A plan is exhausted exactly when its bytes are. */
  lemma PlanExhausted(r: Request, keyhole: nat, o: nat, n: nat)
    requires o <= r.count == Total(r.sgl)
    requires n <= |From(r, keyhole, o)|
    ensures n == |From(r, keyhole, o)| <==> o + SumLen(From(r, keyhole, o)[..n]) == r.count
  {
    ResumeFrom(r, keyhole, o, n);
  }

  /** A transfer stays inside its entry, and inside the keyhole. */
  lemma StepInEntry(r: Request, keyhole: nat, o: nat, j: nat)
    requires o < r.count == Total(r.sgl) && j < StepLen(r, keyhole, o)
    ensures var i := EntryOf(r.sgl, o, |r.sgl|);
            Prefix(r.sgl, i) <= o && o + j < Prefix(r.sgl, i + 1)
    ensures keyhole != 0 ==> o % keyhole + j < keyhole
  {
    hide Prefix, EntryOf;
  }

  /** One transfer moves consecutive bytes of the request. */
  lemma StepMoves(r: Request, keyhole: nat, o: nat, j: nat)
    requires o < r.count == Total(r.sgl) && j < StepLen(r, keyhole, o)
    ensures MovesOf(StepAt(r, keyhole, o))[j] == ByteMove(r, keyhole, o + j)
  {
    hide Prefix, EntryOf, HostAddr, StepLen;
    var i := EntryOf(r.sgl, o, |r.sgl|);
    StepInEntry(r, keyhole, o, j);
    HostAddrInEntry(r.sgl, i, o);
    HostAddrInEntry(r.sgl, i, o + j);
    if keyhole != 0 {
      ModInWindow(o, j, keyhole);
    }
  }

  /** Within one lap of the keyhole the remainder grows with the offset. */
  lemma ModInWindow(o: nat, j: nat, m: nat)
    requires m > 0 && o % m + j < m
    ensures (o + j) % m == o % m + j
  {
    var q := o / m;
    assert o == q * m + o % m;
    assert (o + j) == q * m + (o % m + j);
    Bits.ModUnique(o + j, m, q, o % m + j);
  }

  lemma MovesOfOne(x: Xfer)
    ensures Moves([x]) == MovesOf(x)
  {
    assert [x][..0] == [];
  }

  lemma {:induction false} FromCovers(r: Request, keyhole: nat, o: nat)
    requires o <= r.count == Total(r.sgl)
    ensures |Moves(From(r, keyhole, o))| == r.count - o
    ensures forall m :: o <= m < r.count ==> Moves(From(r, keyhole, o))[m - o] == ByteMove(r, keyhole, m)
    decreases r.count - o
  {
    hide StepLen, HostAddr, ByteMove, EntryOf, Prefix, DevAddr;
    if o < r.count {
      var n, x := StepLen(r, keyhole, o), StepAt(r, keyhole, o);
      FromCovers(r, keyhole, o + n);
      MovesConcat([x], From(r, keyhole, o + n));
      MovesOfOne(x);
      hide MovesOf;
      forall m | o <= m < r.count
        ensures Moves(From(r, keyhole, o))[m - o] == ByteMove(r, keyhole, m)
      {
        if m < o + n {
          StepMoves(r, keyhole, o, m - o);
        }
      }
    }
  }

  /** The plan moves byte 0, 1, ... count-1 once each and in order, each between
      its own bus address and its own device address. */
  lemma WholeCovers(r: Request, keyhole: nat)
    requires r.count == Total(r.sgl)
    ensures |Moves(Whole(r, keyhole))| == r.count
    ensures forall k :: 0 <= k < r.count ==> Moves(Whole(r, keyhole))[k] == ByteMove(r, keyhole, k)
  {
    hide From, HostAddr, DevAddr, StepLen, Moves, ByteMove, MovesOf;
    if r.count > 0 {
      FromCovers(r, keyhole, 0);
      assert forall k :: 0 <= k < r.count ==> Moves(From(r, keyhole, 0))[k] == Moves(From(r, keyhole, 0))[k - 0];
    } else if |r.sgl| > 0 {
      MovesOfOne(Whole(r, keyhole)[0]);
    } else {
      MovesOfNone();
    }
  }

  lemma MovesOfNone()
    ensures Moves([]) == []
  {
  }

  /** No transfer reaches past the end of the keyhole, and the first one after
      it starts again at the keyhole's base. */
  lemma KeyholeBound(r: Request, keyhole: nat, n: nat)
    requires keyhole != 0 && r.count == Total(r.sgl) && n < |Whole(r, keyhole)|
    ensures var x := Whole(r, keyhole)[n];
            r.epAddr <= x.dev && x.dev + x.len <= r.epAddr + keyhole
  {
    if r.count > 0 {
      StepOfPlan(r, keyhole, 0, n);
    }
  }
}
