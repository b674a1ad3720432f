// The user library's buffer allocator: two regions, host and device memory, each
// handed out from a rising 64-bit offset under a page rule.
module Buffers {
  import Bits
  import opened Scatter

  const PAGE: nat := 4096
  const PAGE_ADDRESS_MASK: nat := 0xfff
  const PAGE_ALIGNMENT_MASK: nat := 0xffff_ffff_ffff_f000
  const DEVICE_MEM_OFFSET: nat := 0xa350_0000_0000_0000
  const DEVICE_MEM_MASK: nat := 0xfff0_0000_0000_0000
  const DEVICE_MEM_SIZE: nat := 0x1_0000_0000
  /** The address mask the memory API applies to a device offset. */
  const DEVICE_MEMORY_ADDRESS_MASK: nat := 0x1f_ffff_ffff
  const U64: nat := 0x1_0000_0000_0000_0000

  datatype Location = HostMem | DeviceMem | Unknown
  datatype Buffer = Buffer(addr: nat, size: nat)

  // ------------------------------------------------------------ the page rule

  /** Where a buffer of `n` bytes goes when the next free offset is `o`. */
  function Place(o: nat, n: nat): nat {
    if n <= PAGE then
      if Bits.And(o, PAGE_ADDRESS_MASK) + n > PAGE then Bits.And((o + PAGE) % U64, PAGE_ALIGNMENT_MASK) else o
    else if Bits.And(o, PAGE_ADDRESS_MASK) != 0 then Bits.And((o + PAGE) % U64, PAGE_ALIGNMENT_MASK)
    else o
  }

  function Next(o: nat, n: nat): nat {
    (Place(o, n) + n) % U64
  }

  /** What hardware asks of a buffer at `p`: one of at most a page lies in one page,
      a larger one starts on a page. */
  predicate PageRule(p: nat, n: nat) {
    if n <= PAGE then p % PAGE + n <= PAGE else p % PAGE == 0
  }

  lemma Masks(x: nat)
    requires x < U64
    ensures Bits.And(x, PAGE_ADDRESS_MASK) == x % PAGE
    ensures Bits.And(x, PAGE_ALIGNMENT_MASK) == x - x % PAGE
  {
    Bits.PowValues();
    Bits.AndLow(x, 12);
    Bits.AndHigh(x, 12, 64);
  }

  lemma Masked(x: nat)
    ensures 0 <= Bits.And(x % U64, PAGE_ALIGNMENT_MASK) < U64
  {
    hide Bits.And;
    Masks(x % U64);
  }

  /** Short of wrapping past 64 bits, the place chosen is the least free offset that
      obeys the page rule, so each gap is under a page. */
  lemma PlaceIsLeast(o: nat, n: nat)
    requires o + PAGE < U64
    ensures o <= Place(o, n) < o + PAGE
    ensures PageRule(Place(o, n), n)
    ensures forall p :: o <= p && PageRule(p, n) ==> Place(o, n) <= p
  {
    hide Bits.And;
    PlaceIs(o, n);
    if !PageRule(o, n) {
      var up := o + PAGE - o % PAGE;
      forall p | o <= p && PageRule(p, n)
        ensures up <= p
      {
        if p < up {
          assert false;
        }
      }
    }
  }

  lemma PlaceIs(o: nat, n: nat)
    requires o + PAGE < U64
    ensures Place(o, n) == if PageRule(o, n) then o else o + PAGE - o % PAGE
  {
    hide Bits.And;
    Masks(o);
    Masks(o + PAGE);
    assert (o + PAGE) % PAGE == o % PAGE;
  }

  // ------------------------------------------------------------ runs

  /** The offsets at which a run of allocations of these sizes places its buffers,
      starting from offset `o`. */
  function Starts(o: nat, sizes: seq<nat>): (s: seq<nat>)
    ensures |s| == |sizes|
    decreases |sizes|
  {
    if |sizes| == 0 then [] else [Place(o, sizes[0])] + Starts(Next(o, sizes[0]), sizes[1..])
  }

  function FreeAfter(o: nat, sizes: seq<nat>): nat
    decreases |sizes|
  {
    if |sizes| == 0 then o else FreeAfter(Next(o, sizes[0]), sizes[1..])
  }

  /** No allocation of the run takes the offset near the end of 64 bits. */
  ghost predicate NeverWraps(o: nat, sizes: seq<nat>)
    decreases |sizes|
  {
    |sizes| == 0 ||
    (o + PAGE < U64 && Place(o, sizes[0]) + sizes[0] < U64 && NeverWraps(Next(o, sizes[0]), sizes[1..]))
  }

  lemma {:induction false} StartsRise(o: nat, sizes: seq<nat>)
    requires NeverWraps(o, sizes)
    ensures o <= FreeAfter(o, sizes)
    ensures forall i :: 0 <= i < |sizes| ==>
              && o <= Starts(o, sizes)[i]
              && Starts(o, sizes)[i] + sizes[i] <= FreeAfter(o, sizes)
    decreases |sizes|
  {
    hide Place, PageRule;
    if |sizes| > 0 {
      PlaceIsLeast(o, sizes[0]);
      StartsRise(Next(o, sizes[0]), sizes[1..]);
    }
  }

  /** Over any run, in either region: buffers lie one after another without
      overlap, each obeys the page rule, and the gap before each is under a page. */
  lemma {:induction false} RunDisjoint(o: nat, sizes: seq<nat>)
    requires NeverWraps(o, sizes)
    ensures forall i, j :: 0 <= i < j < |sizes| ==> Starts(o, sizes)[i] + sizes[i] <= Starts(o, sizes)[j]
    ensures forall i :: 0 <= i < |sizes| ==> PageRule(Starts(o, sizes)[i], sizes[i])
    ensures forall i :: 0 <= i < |sizes| - 1 ==> Starts(o, sizes)[i + 1] < Starts(o, sizes)[i] + sizes[i] + PAGE
    decreases |sizes|
  {
    hide Place, PageRule, Next, FreeAfter;
    if |sizes| > 0 {
      PlaceIsLeast(o, sizes[0]);
      var rest, o' := sizes[1..], Next(o, sizes[0]);
      NextIs(o, sizes[0]);
      RunDisjoint(o', rest);
      StartsRise(o', rest);
      var s, t := Starts(o, sizes), Starts(o', rest);
      assert s == [Place(o, sizes[0])] + t;
      if |rest| > 0 {
        PlaceIsLeast(o', rest[0]);
        assert t[0] == Place(o', rest[0]);
      }
      assert forall i :: 0 < i < |sizes| ==> s[i] == t[i - 1] && sizes[i] == rest[i - 1];
    }
  }

  lemma NextIs(o: nat, n: nat)
    requires Place(o, n) + n < U64
    ensures Next(o, n) == Place(o, n) + n
  {
    hide Place;
  }

  // ------------------------------------------------------------ device region

  /** The library's assertion after each device allocation held all along. */
  ghost predicate AssertsPassed(o: nat, sizes: seq<nat>)
    decreases |sizes|
  {
    |sizes| == 0 || (Next(o, sizes[0]) <= DEVICE_MEM_SIZE && AssertsPassed(Next(o, sizes[0]), sizes[1..]))
  }

  /** The assertion looks at the offset after it has been raised modulo 64 bits: it
      bounds the buffer exactly when the size asked for is at most the device's. */
  lemma AssertBoundsIff(o: nat, n: nat)
    requires o <= DEVICE_MEM_SIZE && n < U64 && Next(o, n) <= DEVICE_MEM_SIZE
    ensures Place(o, n) + n <= DEVICE_MEM_SIZE <==> n <= DEVICE_MEM_SIZE
  {
    hide Place, PageRule, Bits.And;
    PlaceIsLeast(o, n);
  }

  /** Such a size passes the assertion and hands out memory already in use. */
  lemma AssertMisses()
    ensures var sizes := [PAGE, U64 - PAGE, PAGE];
            && (forall i :: 0 <= i < |sizes| ==> sizes[i] < U64)
            && AssertsPassed(0, sizes)
            && Starts(0, sizes)[2] == Starts(0, sizes)[0]
  {
    hide Place;
    PlaceIs(0, PAGE);
    PlaceIs(PAGE, U64 - PAGE);
    var sizes := [PAGE, U64 - PAGE, PAGE];
    assert sizes[1..] == [U64 - PAGE, PAGE] && sizes[1..][1..] == [PAGE] && [PAGE][1..] == [];
    assert AssertsPassed(0, [PAGE]);
    assert AssertsPassed(PAGE, sizes[1..]);
    assert Starts(0, [PAGE]) == [0];
    assert Starts(PAGE, sizes[1..])[1] == 0;
  }

  /** With every size at most the device's, a run that passes its assertions never
      wraps and stays inside the device. */
  lemma {:induction false} DeviceRun(o: nat, sizes: seq<nat>)
    requires o <= DEVICE_MEM_SIZE && AssertsPassed(o, sizes)
    requires forall i :: 0 <= i < |sizes| ==> sizes[i] <= DEVICE_MEM_SIZE
    ensures NeverWraps(o, sizes)
    ensures FreeAfter(o, sizes) <= DEVICE_MEM_SIZE
    ensures forall i :: 0 <= i < |sizes| ==> Starts(o, sizes)[i] + sizes[i] <= DEVICE_MEM_SIZE
    decreases |sizes|
  {
    hide Place, PageRule;
    if |sizes| > 0 {
      PlaceIsLeast(o, sizes[0]);
      DeviceRun(Next(o, sizes[0]), sizes[1..]);
      StartsRise(o, sizes);
    }
  }

  function DeviceAddress(o: nat): nat {
    Bits.Or(o, DEVICE_MEM_OFFSET)
  }

  function IsDeviceAddress(address: nat): bool {
    Bits.And(address, DEVICE_MEM_MASK) == DEVICE_MEM_OFFSET
  }

  lemma DeviceConstants()
    ensures Bits.Pow(37) == DEVICE_MEMORY_ADDRESS_MASK + 1
    ensures Bits.Pow(64) - Bits.Pow(52) == DEVICE_MEM_MASK && Bits.Pow(64) == U64
    ensures DEVICE_MEM_OFFSET % Bits.Pow(52) == 0 && DEVICE_MEM_OFFSET % Bits.Pow(37) == 0
  {
    Bits.PowValues();
    assert DEVICE_MEM_OFFSET == 0xa35 * 0x10_0000_0000_0000;
  }

  /** A device buffer's address says it is one, and the mask the memory API applies
      gives its offset back. */
  lemma DeviceAddressRoundTrip(o: nat)
    requires o <= DEVICE_MEM_SIZE
    ensures DeviceAddress(o) == DEVICE_MEM_OFFSET + o < U64
    ensures IsDeviceAddress(DeviceAddress(o))
    ensures Bits.And(DeviceAddress(o), DEVICE_MEMORY_ADDRESS_MASK) == o
  {
    DeviceConstants();
    Bits.OrDisjoint(o, DEVICE_MEM_OFFSET, 52);
    var a := DEVICE_MEM_OFFSET + o;
    Bits.AndHigh(a, 52, 64);
    Bits.ModUnique(a, Bits.Pow(52), 0xa35, o);
    Bits.AndLow(a, 37);
    Bits.ModUnique(a, Bits.Pow(37), 0xa35 * 0x8000, o);
  }

  /** Exactly the addresses in one 52-bit window are taken for device memory. */
  lemma IsDeviceAddressIff(a: nat)
    requires a < U64
    ensures IsDeviceAddress(a) <==> DEVICE_MEM_OFFSET <= a < DEVICE_MEM_OFFSET + 0x10_0000_0000_0000
  {
    hide Bits.And, Bits.Pow;
    DeviceConstants();
    Bits.PowValues();
    Bits.AndHigh(a, 52, 64);
    assert a == a / 0x10_0000_0000_0000 * 0x10_0000_0000_0000 + a % 0x10_0000_0000_0000;
  }

  /** Device memory over a whole run from a fresh device: addresses are disjoint,
      recognised, and inside the device once the memory API has masked them. */
  lemma DeviceBuffers(sizes: seq<nat>)
    requires AssertsPassed(0, sizes) && forall i :: 0 <= i < |sizes| ==> sizes[i] <= DEVICE_MEM_SIZE
    ensures forall i :: 0 <= i < |sizes| ==>
              var a := DeviceAddress(Starts(0, sizes)[i]);
              && IsDeviceAddress(a)
              && Bits.And(a, DEVICE_MEMORY_ADDRESS_MASK) + sizes[i] <= DEVICE_MEM_SIZE
              && PageRule(Bits.And(a, DEVICE_MEMORY_ADDRESS_MASK), sizes[i])
    ensures forall i, j :: 0 <= i < j < |sizes| ==>
              DeviceAddress(Starts(0, sizes)[i]) + sizes[i] <= DeviceAddress(Starts(0, sizes)[j])
  {
    hide Bits.And, Bits.Or, Place, IsDeviceAddress, DeviceAddress;
    DeviceRun(0, sizes);
    RunDisjoint(0, sizes);
    var s := Starts(0, sizes);
    forall i | 0 <= i < |sizes|
      ensures DeviceAddress(s[i]) == DEVICE_MEM_OFFSET + s[i] && IsDeviceAddress(DeviceAddress(s[i]))
      ensures Bits.And(DeviceAddress(s[i]), DEVICE_MEMORY_ADDRESS_MASK) == s[i]
    {
      DeviceAddressRoundTrip(s[i]);
    }
  }

  // ------------------------------------------------------------ the library object

  class RnDev {
    const base: nat
    var bufferOffset: nat
    var devBufferOffset: nat

    constructor (base: nat)
      ensures this.base == base && bufferOffset == devBufferOffset == 0
    {
      this.base := base;
      bufferOffset, devBufferOffset := 0, 0;
    }

    /** Allocate `n` bytes; nothing is returned when the library gives up, which for
        device memory it does only after moving the offset. */
    method AllocateRdmaBuffer(n: nat, location: Location) returns (r: Option<Buffer>)
      requires n < U64 && bufferOffset < U64 && devBufferOffset < U64
      modifies this
      ensures bufferOffset < U64 && devBufferOffset < U64
      ensures bufferOffset == if location.HostMem? then Next(old(bufferOffset), n) else old(bufferOffset)
      ensures devBufferOffset == if location.DeviceMem? then Next(old(devBufferOffset), n) else old(devBufferOffset)
      ensures location.HostMem? ==> r == Some(Buffer((base + Place(old(bufferOffset), n)) % U64, n))
      ensures location.DeviceMem? ==>
                r == if devBufferOffset <= DEVICE_MEM_SIZE
                     then Some(Buffer(DeviceAddress(Place(old(devBufferOffset), n)), n)) else None
      ensures location.Unknown? ==> r == None
    {
      hide Bits.And, Bits.Or;
      Masked(bufferOffset + PAGE);
      Masked(devBufferOffset + PAGE);
      match location
      case HostMem =>
        if n <= PAGE {
          if Bits.And(bufferOffset, PAGE_ADDRESS_MASK) + n > PAGE {
            bufferOffset := Bits.And((bufferOffset + PAGE) % U64, PAGE_ALIGNMENT_MASK);
          }
        } else if Bits.And(bufferOffset, PAGE_ADDRESS_MASK) != 0 {
          bufferOffset := Bits.And((bufferOffset + PAGE) % U64, PAGE_ALIGNMENT_MASK);
        }
        var buffer := (base + bufferOffset) % U64;
        bufferOffset := (bufferOffset + n) % U64;
        return Some(Buffer(buffer, n));
      case DeviceMem =>
        if n <= PAGE {
          if Bits.And(devBufferOffset, PAGE_ADDRESS_MASK) + n > PAGE {
            devBufferOffset := Bits.And((devBufferOffset + PAGE) % U64, PAGE_ALIGNMENT_MASK);
          }
        } else if Bits.And(devBufferOffset, PAGE_ADDRESS_MASK) != 0 {
          devBufferOffset := Bits.And((devBufferOffset + PAGE) % U64, PAGE_ALIGNMENT_MASK);
        }
        var buffer := Bits.Or(devBufferOffset, DEVICE_MEM_OFFSET);
        devBufferOffset := (devBufferOffset + n) % U64;
        if devBufferOffset > DEVICE_MEM_SIZE {
          return None;
        }
        return Some(Buffer(buffer, n));
      case Unknown =>
        return None;
    }
  }
}
