// Wrapped indices: how free-running counters, modular ring indices and ring
// contents relate.
module Ring {
  import Bits

  /** Ring slot of the free-running position `i`. */
  function Slot(i: nat, n: nat): (k: nat)
    requires n > 0
    ensures k < n
  {
    i % n
  }

  /** Stepping less than one lap adds the step and subtracts at most one lap. */
  lemma SlotStep(i: nat, d: nat, n: nat)
    requires d <= n && n > 0
    ensures Slot(i + d, n) == if Slot(i, n) + d < n then Slot(i, n) + d else Slot(i, n) + d - n
  {
    var q := i / n;
    assert i == q * n + i % n;
    if i % n + d < n {
      Bits.ModUnique(i + d, n, q, i % n + d);
    } else {
      assert (q + 1) * n == q * n + n;
      Bits.ModUnique(i + d, n, q + 1, i % n + d - n);
    }
  }

  /** Positions less than a lap apart occupy different slots. */
  lemma SlotDistinct(i: nat, j: nat, n: nat)
    requires n > 0 && i < j < i + n
    ensures Slot(i, n) != Slot(j, n)
  {
    SlotStep(i, j - i, n);
  }

  /** The driver's wrapped difference of two ring indices. */
  function WrappedDiff(newer: nat, older: nat, n: nat): int {
    if newer < older then n - older + newer else newer - older
  }

  /** The wrapped difference is the true one when it is below a full lap. */
  lemma WrappedDiffTrue(older: nat, newer: nat, n: nat)
    requires n > 0 && older <= newer < older + n
    ensures WrappedDiff(Slot(newer, n), Slot(older, n), n) == newer - older
    ensures Slot(newer, n) == Slot(older, n) <==> newer == older
  {
    SlotStep(older, newer - older, n);
  }

  /** `ds` stored one after another from index `p` on, wrapping at the end. */
  function WriteRing<T>(ring: seq<T>, p: nat, ds: seq<T>): (out: seq<T>)
    requires |ring| > 0
    ensures |out| == |ring|
    decreases |ds|
  {
    if |ds| == 0 then ring
    else WriteRing(ring, p, ds[..|ds| - 1])[Slot(p + (|ds| - 1), |ring|) := ds[|ds| - 1]]
  }

  lemma {:induction false} WriteRingHits<T>(ring: seq<T>, p: nat, ds: seq<T>, j: nat)
    requires j < |ds| <= |ring|
    ensures WriteRing(ring, p, ds)[Slot(p + j, |ring|)] == ds[j]
    decreases |ds|
  {
    if j < |ds| - 1 {
      WriteRingHits(ring, p, ds[..|ds| - 1], j);
      SlotDistinct(p + j, p + (|ds| - 1), |ring|);
    }
  }

  /** Slots behind the written stretch, back to one lap before its end, keep
      their contents. */
  lemma {:induction false} WriteRingMisses<T>(ring: seq<T>, p: nat, ds: seq<T>, i: nat)
    requires |ring| > 0 && i < p && p + |ds| <= i + |ring|
    ensures WriteRing(ring, p, ds)[Slot(i, |ring|)] == ring[Slot(i, |ring|)]
    decreases |ds|
  {
    if |ds| > 0 {
      WriteRingMisses(ring, p, ds[..|ds| - 1], i);
      SlotDistinct(i, p + (|ds| - 1), |ring|);
    }
  }

  /** Writing from a free-running position or from its slot is the same. */
  lemma {:induction false} WriteRingFromSlot<T>(ring: seq<T>, p: nat, ds: seq<T>)
    requires 0 < |ring| && |ds| <= |ring|
    ensures WriteRing(ring, Slot(p, |ring|), ds) == WriteRing(ring, p, ds)
    decreases |ds|
  {
    if |ds| > 0 {
      WriteRingFromSlot(ring, p, ds[..|ds| - 1]);
      SlotOfSlot(p, |ds| - 1, |ring|);
    }
  }

  lemma SlotOfSlot(p: nat, d: nat, n: nat)
    requires n > 0 && d <= n
    ensures Slot(Slot(p, n) + d, n) == Slot(p + d, n)
  {
    SlotStep(p, d, n);
    var s := Slot(p, n);
    Bits.ModUnique(s, n, 0, s);
    SlotStep(s, d, n);
  }
}
