// Scatter lists: where byte k of a request lies in bus memory, and the walk
// that turns a byte offset back into an entry and an offset inside it.
module Scatter {

  datatype Option<+T> = None | Some(value: T)

  /** One mapped scatter-gather entry: `len` bytes from bus address `dma`. */
  datatype Sg = Sg(len: nat, dma: nat)

  /** Bytes held by the first `i` entries. */
  function Prefix(sgl: seq<Sg>, i: nat): nat
    requires i <= |sgl|
  {
    if i == 0 then 0 else Prefix(sgl, i - 1) + sgl[i - 1].len
  }

  function Total(sgl: seq<Sg>): nat {
    Prefix(sgl, |sgl|)
  }

  ghost predicate NonEmpty(sgl: seq<Sg>) {
    forall i :: 0 <= i < |sgl| ==> sgl[i].len > 0
  }

  /** The entry, among the first `n`, that holds byte `k`. */
  function EntryOf(sgl: seq<Sg>, k: nat, n: nat): (i: nat)
    requires n <= |sgl| && k < Prefix(sgl, n)
    ensures i < n && Prefix(sgl, i) <= k < Prefix(sgl, i + 1)
  {
    if Prefix(sgl, n - 1) <= k then n - 1 else EntryOf(sgl, k, n - 1)
  }

  /** Bus address of byte `k`. */
  function HostAddr(sgl: seq<Sg>, k: nat): nat
    requires k < Total(sgl)
  {
    var i := EntryOf(sgl, k, |sgl|);
    sgl[i].dma + (k - Prefix(sgl, i))
  }

  lemma {:induction false} PrefixMonotone(sgl: seq<Sg>, i: nat, j: nat)
    requires i <= j <= |sgl|
    ensures Prefix(sgl, i) <= Prefix(sgl, j)
    decreases j - i
  {
    if i < j {
      PrefixMonotone(sgl, i, j - 1);
    }
  }

  lemma {:induction false} PrefixStrict(sgl: seq<Sg>, i: nat, j: nat)
    requires NonEmpty(sgl) && i < j <= |sgl|
    ensures Prefix(sgl, i) < Prefix(sgl, j)
  {
    PrefixMonotone(sgl, i, j - 1);
  }

  /** No two entries hold the same byte. */
  lemma EntryUnique(sgl: seq<Sg>, k: nat, i: nat)
    requires i < |sgl| && Prefix(sgl, i) <= k < Prefix(sgl, i + 1)
    ensures k < Total(sgl) && EntryOf(sgl, k, |sgl|) == i
  {
    PrefixMonotone(sgl, i + 1, |sgl|);
    var e := EntryOf(sgl, k, |sgl|);
    if e < i {
      PrefixMonotone(sgl, e + 1, i);
    } else if i < e {
      PrefixMonotone(sgl, i + 1, e);
    }
  }

  /** Bytes of one entry are contiguous in bus memory. */
  lemma HostAddrInEntry(sgl: seq<Sg>, i: nat, k: nat)
    requires i < |sgl| && Prefix(sgl, i) <= k < Prefix(sgl, i + 1)
    ensures k < Total(sgl)
    ensures HostAddr(sgl, k) == sgl[i].dma + (k - Prefix(sgl, i))
  {
    EntryUnique(sgl, k, i);
  }

  /** The scatter walk. It returns the entry index and the offset inside that
      entry, or nothing when it runs off the list. Only the byte offset is
      consulted, so the answer is the same however the transfer was split. */
  method FindOffset(sgl: seq<Sg>, count: nat, offset: nat) returns (r: Option<(nat, nat)>)
    ensures count == 0 ==> r == Some((0, 0))
    ensures count != 0 && r.Some? ==>
              r.value.0 < |sgl| && Prefix(sgl, r.value.0) + r.value.1 == offset
    ensures count != 0 && NonEmpty(sgl) ==>
              (r.None? <==> offset >= Total(sgl)) &&
              (r.Some? ==> r.value.0 == EntryOf(sgl, offset, |sgl|) && r.value.1 < sgl[r.value.0].len)
  {
    if count == 0 {
      return Some((0, 0));
    }
    var len, i := 0, 0;
    while i < |sgl|
      invariant i <= |sgl| && len == Prefix(sgl, i)
      invariant len < offset || i == 0
    {
      len := len + sgl[i].len;
      if len == offset {
        i := i + 1;
        if i == |sgl| {
          return None;
        }
        if sgl[i].len > 0 {
          EntryUnique(sgl, offset, i);
        }
        return Some((i, 0));
      } else if len > offset {
        EntryUnique(sgl, offset, i);
        return Some((i, sgl[i].len - (len - offset)));
      }
      i := i + 1;
    }
    return None;
  }
}
