// From one library call to the requests the queue engine sees: the chunk loop of the
// memory API, the split of a user buffer into pages, and their mapping.
module Transfer {
  import opened Scatter
  import opened Plan
  import Bits
  import Buffers

  const PAGE: nat := 4096
  const RW_MAX_SIZE: nat := 0x7fff_f000
  const I63: nat := 0x8000_0000_0000_0000
  const DMA_ERROR: nat := 0xffff_ffff_ffff_ffff
  const EIO: int := 5
  const ENOMEM: int := 12
  const EFAULT: int := 14
  const EINVAL: int := 22

  // ------------------------------------------------------------ pages

  /** One entry as the character device fills it; `dma` is set when it is mapped. */
  datatype SwSg = SwSg(page: nat, offset: nat, len: nat, dma: nat)

  function PagesFor(buf: nat, len: nat): nat {
    if len == 0 then 1 else (len + buf % PAGE + PAGE - 1) / PAGE
  }

  /** Bytes of the buffer that lie before its page number `i`. */
  function Before(buf: nat, len: nat, i: nat): nat {
    if i == 0 then 0 else Min(len, i * PAGE - buf % PAGE)
  }

  ghost predicate PageSplit(buf: nat, len: nat, pages: seq<nat>, sg: seq<SwSg>) {
    && |sg| == |pages| == PagesFor(buf, len)
    && forall i :: 0 <= i < |sg| ==>
         && sg[i].page == pages[i]
         && sg[i].offset == (buf + Before(buf, len, i)) % PAGE
         && Before(buf, len, i) + sg[i].len == Before(buf, len, i + 1)
  }

  /** Two pages in a row are the same one. */
  predicate Repeats(pages: seq<nat>) {
    exists i :: 0 < i < |pages| && pages[i - 1] == pages[i]
  }

  /** Split a user buffer by pages. `room` says whether there was memory for the
      list; `pinned` and `pages` are what pinning the buffer gave: an error, or how many
      pages and which. */
  method MapUserBufToSgl(buf: nat, len: nat, room: bool, pinned: int, pages: seq<nat>)
    returns (rv: int, sgl: array<SwSg>)
    requires len <= RW_MAX_SIZE
    requires pinned >= 0 ==> pinned == |pages|
    ensures fresh(sgl)
    ensures rv == if !room then -ENOMEM
                  else if pinned < 0 then pinned
                  else if pinned != PagesFor(buf, len) || Repeats(pages) then -EFAULT else 0
    ensures rv == 0 ==> PageSplit(buf, len, pages, sgl[..])
    ensures rv != 0 ==> sgl.Length == 0
  {
    var off := buf % PAGE;
    var pagesNr := (len + off + PAGE - 1) / PAGE % U32;
    if len == 0 {
      pagesNr := 1;
    }
    sgl := new SwSg[0];
    if pagesNr == 0 {
      return -EINVAL, sgl;
    }
    if !room {
      return -ENOMEM, sgl;
    }
    if pinned < 0 {
      return pinned, sgl;
    }
    if pinned != pagesNr {
      return -EFAULT, sgl;
    }
    var i := 1;
    while i < pagesNr
      invariant 1 <= i
      invariant forall j :: 0 < j < i && j < |pages| ==> pages[j - 1] != pages[j]
    {
      if pages[i - 1] == pages[i] {
        return -EFAULT, sgl;
      }
      i := i + 1;
    }
    sgl := new SwSg[pagesNr](_ => SwSg(0, 0, 0, 0));
    FillSgl(sgl, buf, len, pages);
    return 0, sgl;
  }

  /** Fill one entry a page, from the front of the buffer on. */
  method FillSgl(sgl: array<SwSg>, buf: nat, len: nat, pages: seq<nat>)
    requires len < U32 && sgl.Length == |pages| == PagesFor(buf, len)
    modifies sgl
    ensures PageSplit(buf, len, pages, sgl[..])
  {
    hide Before, PagesFor, Min;
    var at, left := buf, len;
    var i := 0;
    NoneBefore(buf, len);
    while i < sgl.Length
      invariant 0 <= i <= sgl.Length
      invariant at == buf + Before(buf, len, i) && left == len - Before(buf, len, i)
      invariant forall j :: 0 <= j < i ==>
                  && sgl[j].page == pages[j]
                  && sgl[j].offset == (buf + Before(buf, len, j)) % PAGE
                  && Before(buf, len, j) + sgl[j].len == Before(buf, len, j + 1)
    {
      var offset := at % PAGE;
      var nbytes := Min(PAGE - offset, left % U32);
      PageStep(buf, len, i);
      sgl[i] := SwSg(pages[i], offset, nbytes, 0);
      at, left := at + nbytes, left - nbytes;
      i := i + 1;
    }
  }

  lemma NoneBefore(buf: nat, len: nat)
    ensures Before(buf, len, 0) == 0
  {
  }

  /** Each step takes what is left of the page, or of the buffer. */
  lemma PageStep(buf: nat, len: nat, i: nat)
    requires i < PagesFor(buf, len)
    ensures Before(buf, len, i) + Min(PAGE - (buf + Before(buf, len, i)) % PAGE, len - Before(buf, len, i))
         == Before(buf, len, i + 1)
    ensures Before(buf, len, i) <= len
    ensures len > 0 ==> Before(buf, len, i) < Before(buf, len, i + 1)
  {
    if i > 0 {
      assert i * PAGE - buf % PAGE < len;
      assert buf + (i * PAGE - buf % PAGE) == (buf / PAGE + i) * PAGE;
    }
  }

  /** Release the mapping of the first `n` entries, up to one without a page. */
  method SglUnmap(sgl: array<SwSg>, n: nat)
    requires n <= sgl.Length
    modifies sgl
    ensures exists m :: UnmappedUpTo(old(sgl[..]), sgl[..], n, m)
  {
    var i := 0;
    while i < n
      invariant 0 <= i <= n
      invariant forall j :: i <= j < sgl.Length ==> sgl[j] == old(sgl[j])
      invariant forall j :: 0 <= j < i ==> old(sgl[j]).page != 0 && sgl[j] == old(sgl[j]).(dma := 0)
    {
      if sgl[i].page == 0 {
        break;
      }
      if sgl[i].dma != 0 {
        sgl[i] := sgl[i].(dma := 0);
      }
      i := i + 1;
    }
    assert UnmappedUpTo(old(sgl[..]), sgl[..], n, i);
  }

  /** The first `m` entries, all with a page, lost their mapping, and nothing else
      changed; the walk ended at `n` or at an entry without a page. */
  ghost predicate UnmappedUpTo(was: seq<SwSg>, now: seq<SwSg>, n: nat, m: nat) {
    && |now| == |was| && m <= n <= |was| && (m == n || was[m].page == 0)
    && (forall j :: 0 <= j < m ==> was[j].page != 0 && now[j] == was[j].(dma := 0))
    && (forall j :: m <= j < |was| ==> now[j] == was[j])
  }

  /** Map each entry's page; `mapped` is the bus address each mapping gave, if any.
      A failure undoes the mappings made before it. */
  method SglMap(sgl: array<SwSg>, mapped: seq<Option<nat>>) returns (rv: int)
    requires |mapped| == sgl.Length
    modifies sgl
    ensures rv == if forall i :: 0 <= i < |mapped| ==> mapped[i].Some? then 0 else -EIO
    ensures rv == 0 ==> forall i :: 0 <= i < |mapped| ==>
              sgl[i] == old(sgl[i]).(dma := mapped[i].value + old(sgl[i]).offset)
    ensures rv != 0 && (forall i :: 0 <= i < sgl.Length ==> old(sgl[i]).page != 0) ==>
              exists f :: 0 <= f < sgl.Length && mapped[f].None? &&
                forall i :: 0 <= i < sgl.Length && i != f ==> sgl[i].dma == if i < f then 0 else old(sgl[i]).dma
  {
    var i := 0;
    while i < sgl.Length
      invariant 0 <= i <= sgl.Length
      invariant forall j :: 0 <= j < i ==>
                  mapped[j].Some? && sgl[j] == old(sgl[j]).(dma := mapped[j].value + old(sgl[j]).offset)
      invariant forall j :: i <= j < sgl.Length ==> sgl[j] == old(sgl[j])
    {
      if mapped[i].None? {
        sgl[i] := sgl[i].(dma := DMA_ERROR);
        if i > 0 {
          ghost var was := sgl[..];
          SglUnmap(sgl, i);
          ghost var m :| UnmappedUpTo(was, sgl[..], i, m);
          assert forall j :: 0 <= j < |was| ==> sgl[j] == sgl[..][j];
        }
        return -EIO;
      }
      sgl[i] := sgl[i].(dma := mapped[i].value);
      sgl[i] := sgl[i].(dma := sgl[i].dma + sgl[i].offset);
      i := i + 1;
    }
    return 0;
  }

  // ------------------------------------------------------------ the request

  function Mapped(sg: seq<SwSg>): (m: seq<Sg>)
    ensures |m| == |sg|
  {
    seq(|sg|, i requires 0 <= i < |sg| => Sg(sg[i].len, sg[i].dma))
  }

  /** The request a character-device read or write of `len` bytes at position `pos`
      submits. */
  function RequestFor(sg: seq<SwSg>, len: nat, pos: nat): Request {
    Request(pos, len, Mapped(sg), false)
  }

  /** During call `c`, the buffer's virtual page `v` is at bus address `bus(c, v)`. */
  ghost predicate MappedBy(buf: nat, sg: seq<SwSg>, bus: (nat, nat) -> nat, c: nat) {
    forall i :: 0 <= i < |sg| ==> sg[i].dma == bus(c, buf / PAGE + i) + sg[i].offset
  }

  lemma {:induction false} SplitPrefix(buf: nat, len: nat, pages: seq<nat>, sg: seq<SwSg>, i: nat)
    requires PageSplit(buf, len, pages, sg) && i <= |sg|
    ensures Prefix(Mapped(sg), i) == Before(buf, len, i)
  {
    if i > 0 {
      SplitPrefix(buf, len, pages, sg, i - 1);
    }
  }

  /** The split is what the queue engine asks of a request: the lengths add up to the
      count, none is empty, and an empty buffer still has its one entry. */
  lemma SplitWellFormed(buf: nat, len: nat, pos: nat, pages: seq<nat>, sg: seq<SwSg>, bus: (nat, nat) -> nat, c: nat)
    requires len < U32 && PageSplit(buf, len, pages, sg) && MappedBy(buf, sg, bus, c)
    requires pos + len <= U64 && forall v :: bus(c, v) + PAGE <= U64
    ensures WellFormed(RequestFor(sg, len, pos), 0)
  {
    SplitPrefix(buf, len, pages, sg, |sg|);
    var m := Mapped(sg);
    forall i | 0 <= i < |m|
      ensures m[i].dma + m[i].len <= U64 && (len > 0 ==> m[i].len > 0)
    {
      PageStep(buf, len, i);
      assert bus(c, buf / PAGE + i) + PAGE <= U64;
    }
  }

  /** Byte `k` of the request moves between the bus image of the buffer's own page,
      at the buffer's own place in it, and device position `pos + k`. */
  lemma ByteOfRequest(buf: nat, len: nat, pos: nat, pages: seq<nat>, sg: seq<SwSg>, bus: (nat, nat) -> nat, c: nat,
                      k: nat)
    requires PageSplit(buf, len, pages, sg) && MappedBy(buf, sg, bus, c) && k < len
    ensures k < Total(RequestFor(sg, len, pos).sgl)
    ensures ByteMove(RequestFor(sg, len, pos), 0, k) == (bus(c, (buf + k) / PAGE) + (buf + k) % PAGE, pos + k)
  {
    hide Before, EntryOf, HostAddr, PagesFor;
    var m := Mapped(sg);
    var i := PageOfByte(buf, len, k);
    SplitPrefix(buf, len, pages, sg, i);
    SplitPrefix(buf, len, pages, sg, i + 1);
    HostAddrInEntry(m, i, k);
  }

  /** The page of the buffer that byte `k` lies in. */
  lemma PageOfByte(buf: nat, len: nat, k: nat) returns (i: nat)
    requires k < len
    ensures i < PagesFor(buf, len) && Before(buf, len, i) <= k < Before(buf, len, i + 1)
    ensures buf / PAGE + i == (buf + k) / PAGE
    ensures (buf + Before(buf, len, i)) % PAGE + (k - Before(buf, len, i)) == (buf + k) % PAGE
  {
    var at := buf % PAGE + k;
    i := at / PAGE;
    assert at == i * PAGE + at % PAGE;
    assert buf + k == (buf / PAGE + i) * PAGE + at % PAGE;
    Bits.ModUnique(buf + k, PAGE, buf / PAGE + i, at % PAGE);
    if i > 0 {
      Bits.ModUnique(buf + (i * PAGE - buf % PAGE), PAGE, buf / PAGE + i, 0);
    }
  }

  // ------------------------------------------------------------ chunks

  /** One pair of calls: `bytes` from buffer position `start`, at file position `pos`. */
  datatype Chunk = Chunk(start: nat, bytes: nat, pos: nat)

  function ChunkCount(size: nat): nat {
    if size == 0 then 1 else (size + RW_MAX_SIZE - 1) / RW_MAX_SIZE
  }

  function ChunkAt(size: nat, base: nat, i: nat): Chunk
    requires i < ChunkCount(size)
  {
    Chunk(i * RW_MAX_SIZE, Min(RW_MAX_SIZE, size - i * RW_MAX_SIZE), base + i * RW_MAX_SIZE)
  }

  /** A 64-bit pattern read as a signed number. */
  function Signed64(x: int): int {
    if x % U64 < I63 then x % U64 else x % U64 - U64
  }

  /** Seeking to an absolute position, as the character device does it. */
  function Llseek(off: int): int {
    if off < 0 then -EINVAL else off
  }

  function Base(devOffset: nat): nat {
    Bits.And(devOffset, Buffers.DEVICE_MEMORY_ADDRESS_MASK)
  }

  /** Every position stays below 63 bits and every call moves what it was asked to. */
  ghost predicate Succeeds(size: nat, base: nat, moved: nat -> int) {
    forall i :: 0 <= i < ChunkCount(size) ==>
      ChunkAt(size, base, i).pos < I63 && moved(i) == ChunkAt(size, base, i).bytes
  }

  lemma BaseBound(devOffset: nat)
    ensures Base(devOffset) <= Buffers.DEVICE_MEMORY_ADDRESS_MASK
    ensures Base(devOffset) == devOffset % (Buffers.DEVICE_MEMORY_ADDRESS_MASK + 1)
  {
    Bits.PowValues();
    Bits.AndLow(devOffset, 37);
  }

  /** The chunk loop of a library read or write. `moved(i)` is what the `i`-th read or
      write call returned; `calls` records what was asked of each call made. */
  method ReadOrWrite(size: nat, devOffset: nat, moved: nat -> int) returns (rc: int, ghost calls: seq<Chunk>)
    requires size < U64 && devOffset < U64
    ensures rc == if Succeeds(size, Base(devOffset), moved) then Signed64(size) else -EIO
    ensures |calls| <= ChunkCount(size)
    ensures forall i :: 0 <= i < |calls| ==> calls[i] == ChunkAt(size, Base(devOffset), i)
    ensures Succeeds(size, Base(devOffset), moved) ==> |calls| == ChunkCount(size)
  {
    hide ChunkCount, ChunkAt, Base, Signed64;
    BaseBound(devOffset);
    SignedValues();
    var count, offset := 0, Bits.And(devOffset, Buffers.DEVICE_MEMORY_ADDRESS_MASK) as int;
    ghost var base := Base(devOffset);
    BaseIs(devOffset);
    ChunkFirst(size);
    var n := 0;
    calls := [];
    while true
      invariant n == |calls| < ChunkCount(size) && count == n * RW_MAX_SIZE
      invariant offset == Signed64(base + count) && base + count < U64
      invariant forall i :: 0 <= i < |calls| ==>
                  && calls[i] == ChunkAt(size, base, i)
                  && calls[i].pos < I63 && moved(i) == calls[i].bytes
      decreases size - count
    {
      ChunkStep(size, base, n);
      SignedIs(base + count);
      var bytes := size - count;
      if bytes > RW_MAX_SIZE {
        bytes := RW_MAX_SIZE;
      }
      rc := Llseek(offset);
      if rc < 0 {
        assert ChunkAt(size, base, n).pos >= I63;
        return -EIO, calls;
      }
      if rc != offset {
        return -EIO, calls;
      }
      calls := calls + [Chunk(count, bytes, rc)];
      assert calls[n] == ChunkAt(size, base, n);
      rc := moved(n);
      if rc < 0 {
        return -EIO, calls;
      }
      if rc != bytes {
        return -EIO, calls;
      }
      SignedSum(base + count, bytes);
      count := count + bytes;
      offset := Signed64(offset + bytes);
      n := n + 1;
      if count >= size {
        break;
      }
    }
    if count != size {
      return -EIO, calls;
    }
    return Signed64(count), calls;
  }

  lemma BaseIs(devOffset: nat)
    ensures Base(devOffset) == Bits.And(devOffset, Buffers.DEVICE_MEMORY_ADDRESS_MASK)
  {
  }

  lemma ChunkFirst(size: nat)
    ensures ChunkCount(size) > 0
  {
  }

  /** The `n`-th chunk, and whether it is the last. */
  lemma ChunkStep(size: nat, base: nat, n: nat)
    requires n < ChunkCount(size)
    ensures n * RW_MAX_SIZE <= size
    ensures var at := n * RW_MAX_SIZE;
            var bytes := if size - at > RW_MAX_SIZE then RW_MAX_SIZE else size - at;
            && ChunkAt(size, base, n) == Chunk(at, bytes, base + at)
            && (at + bytes < size ==> n + 1 < ChunkCount(size) && bytes == RW_MAX_SIZE)
            && (at + bytes >= size ==> n + 1 == ChunkCount(size) && at + bytes == size)
  {
  }

  lemma SignedValues()
    ensures forall x: nat :: x < I63 ==> Signed64(x) == x
  {
  }

  lemma SignedIs(x: nat)
    requires x < U64
    ensures Signed64(x) >= 0 <==> x < I63
    ensures x < I63 ==> Signed64(x) == x
  {
  }

  lemma SignedSum(x: nat, y: nat)
    requires x < I63
    ensures Signed64(Signed64(x) + y) == Signed64(x + y)
  {
  }

  /** The chunks tile the buffer: each byte is in exactly one of them. */
  lemma ChunksTile(size: nat, base: nat, j: nat, i: nat)
    requires j < size && i < ChunkCount(size)
    ensures j / RW_MAX_SIZE < ChunkCount(size)
    ensures ChunkAt(size, base, i).start <= j < ChunkAt(size, base, i).start + ChunkAt(size, base, i).bytes
            <==> i == j / RW_MAX_SIZE
  {
    var q := j / RW_MAX_SIZE;
    assert j == q * RW_MAX_SIZE + j % RW_MAX_SIZE;
    var c := ChunkAt(size, base, i);
    if i < q {
      assert (i + 1) * RW_MAX_SIZE <= q * RW_MAX_SIZE;
    } else if i > q {
      assert (q + 1) * RW_MAX_SIZE <= i * RW_MAX_SIZE;
    }
  }
}
