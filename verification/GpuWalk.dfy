/** Copies between host memory and a pinned GPU buffer, page by page through the BAR aperture
    (driver/gpu_p2p.c). */
module GpuWalk {
  import opened Wire

  const PAGE: nat := 0x1_0000

  /** The pages of a pinned buffer lie in the aperture and do not overlap.  pages[i] is the
      physical address of page i, which bar_pages[i] maps. */
  ghost predicate Pinned(pages: seq<nat>, aperture: nat) {
    && (forall i :: 0 <= i < |pages| ==> pages[i] + PAGE <= aperture)
    && (forall i, j :: 0 <= i < j < |pages| ==> pages[i] + PAGE <= pages[j] || pages[j] + PAGE <= pages[i])
  }

  function PageOf(k: nat): nat { k / PAGE }

  function OffsetOf(k: nat): (o: nat)
    ensures o < PAGE
  {
    k % PAGE
  }

  predicate InBuffer(pages: seq<nat>, k: nat) { k < |pages| * PAGE }

  lemma {:induction false} PageInRange(pages: seq<nat>, k: nat)
    ensures InBuffer(pages, k) <==> PageOf(k) < |pages|
  {
  }

  /** Where byte k of the buffer is. */
  function Address(pages: seq<nat>, k: nat): nat
    requires PageOf(k) < |pages|
  {
    pages[PageOf(k)] + OffsetOf(k)
  }

  lemma {:induction false} WithinPage(k: nat, i: nat)
    requires OffsetOf(k) + i < PAGE
    ensures PageOf(k + i) == PageOf(k) && OffsetOf(k + i) == OffsetOf(k) + i
  {
    var p, o := k / PAGE, k % PAGE;
    assert k + i == PAGE * p + (o + i);
  }

  lemma {:induction false} AddressesDistinct(pages: seq<nat>, aperture: nat, j: nat, k: nat)
    requires Pinned(pages, aperture) && PageOf(j) < |pages| && PageOf(k) < |pages| && j != k
    ensures Address(pages, j) != Address(pages, k) && Address(pages, j) < aperture
  {
    if PageOf(j) == PageOf(k) {
      assert j == PAGE * PageOf(j) + OffsetOf(j) && k == PAGE * PageOf(k) + OffsetOf(k);
    }
  }

  /** The bytes [offset, offset + n) of the buffer, as a flat copy would see them. */
  ghost function Flat(bar: seq<Byte>, pages: seq<nat>, offset: nat, n: nat): (s: seq<Byte>)
    requires Pinned(pages, |bar|) && offset + n <= |pages| * PAGE
    ensures |s| == n
  {
    seq(n, i requires 0 <= i < n =>
      PageInRange(pages, offset + i); bar[Address(pages, offset + i)])
  }

  /** Byte o of page j is at pages[j] + o: pages are 64 KB, in the order of the page table. */
  lemma {:induction false} FlatIs(bar: seq<Byte>, pages: seq<nat>, offset: nat, n: nat, j: nat, o: nat)
    requires Pinned(pages, |bar|) && offset + n <= |pages| * 0x1_0000
    requires j < |pages| && o < 0x1_0000 && offset <= j * 0x1_0000 + o < offset + n
    ensures pages[j] + o < |bar|
    ensures Flat(bar, pages, offset, n)[j * 0x1_0000 + o - offset] == bar[pages[j] + o]
  {
    var k := j * 0x1_0000 + o;
    PageInRange(pages, k);
    assert PageOf(k) == j && OffsetOf(k) == o;
    assert Flat(bar, pages, offset, n)[k - offset] == bar[Address(pages, offset + (k - offset))];
  }

  /** Bytes outside [offset, offset + n) of the buffer are as before, wherever they are. */
  ghost predicate Elsewhere(before: seq<Byte>, after: seq<Byte>, pages: seq<nat>, offset: nat, n: nat) {
    && |before| == |after|
    && forall a :: 0 <= a < |after| && !Covers(pages, offset, n, a) ==> after[a] == before[a]
  }

  ghost predicate Covers(pages: seq<nat>, offset: nat, n: nat, a: nat) {
    exists k :: offset <= k < offset + n && PageOf(k) < |pages| && Address(pages, k) == a
  }

  /** One stretch written: it holds the chunk, everything else is as before. */
  ghost predicate Written(before: seq<Byte>, after: seq<Byte>, at: nat, chunk: seq<Byte>) {
    && |before| == |after| && at + |chunk| <= |after|
    && forall a :: 0 <= a < |after| ==> after[a] == if at <= a < at + |chunk| then chunk[a - at] else before[a]
  }

  // --------------------------------------------------------------- page copies

  /** memcpy_fromio within one page. */
  method ReadPage(host: array<Byte>, to: nat, bar: array<Byte>, page: nat, pageOff: nat, n: nat)
    requires host != bar && pageOff + n <= PAGE && page + PAGE <= bar.Length && to + n <= host.Length
    modifies host
    ensures Written(old(host[..]), host[..], to, bar[page + pageOff..page + pageOff + n])
  {
    for i := 0 to n
      invariant forall x :: 0 <= x < host.Length ==>
        host[x] == if to <= x < to + i then bar[page + pageOff + (x - to)] else old(host[x])
    {
      host[to + i] := bar[page + pageOff + i];
    }
  }

  /** memcpy_toio within one page. */
  method WritePage(bar: array<Byte>, page: nat, pageOff: nat, host: array<Byte>, from: nat, n: nat)
    requires host != bar && pageOff + n <= PAGE && page + PAGE <= bar.Length && from + n <= host.Length
    modifies bar
    ensures Written(old(bar[..]), bar[..], page + pageOff, host[from..from + n])
  {
    for i := 0 to n
      invariant forall a :: 0 <= a < bar.Length ==>
        bar[a] == if page + pageOff <= a < page + pageOff + i then host[from + (a - page - pageOff)] else old(bar[a])
    {
      bar[page + pageOff + i] := host[from + i];
    }
  }

  // ---------------------------------------------------------------- page walks

  /** Byte k of the buffer is b. */
  predicate Holds(b: Byte, bar: seq<Byte>, pages: seq<nat>, k: nat) {
    PageOf(k) < |pages| && Address(pages, k) < |bar| && b == bar[Address(pages, k)]
  }

  /** host[from..from + n) are the bytes of the buffer from offset on. */
  ghost predicate Matches(host: seq<Byte>, from: nat, n: nat, bar: seq<Byte>, pages: seq<nat>, offset: nat) {
    from + n <= |host| && forall x :: from <= x < from + n ==> Holds(host[x], bar, pages, offset + (x - from))
  }

  lemma {:induction false} MatchesFlat(host: seq<Byte>, from: nat, n: nat, bar: seq<Byte>, pages: seq<nat>, offset: nat)
    requires Matches(host, from, n, bar, pages, offset) && Pinned(pages, |bar|) && offset + n <= |pages| * PAGE
    ensures host[from..from + n] == Flat(bar, pages, offset, n)
  {
    forall i | 0 <= i < n ensures host[from..from + n][i] == Flat(bar, pages, offset, n)[i] {
      assert Holds(host[from + i], bar, pages, offset + (from + i - from));
    }
  }

  /** gpu_bar_memcpy_fromio. */
  method MemcpyFromIo(host: array<Byte>, dst: nat, bar: array<Byte>, pages: seq<nat>, offset: nat, size: nat)
    requires host != bar && Pinned(pages, bar.Length)
    requires offset + size <= |pages| * PAGE && dst + size <= host.Length
    modifies host
    ensures Written(old(host[..]), host[..], dst, Flat(bar[..], pages, offset, size))
  {
    var remaining: nat, pos: nat := size, 0;
    ghost var was, gpu := host[..], bar[..];
    while remaining > 0
      invariant pos + remaining == size && bar[..] == gpu
      invariant Matches(host[..], dst, pos, gpu, pages, offset) && SameOutside(was, host[..], dst, pos)
    {
      var chunk := ReadChunk(host, dst, bar, pages, offset, pos, remaining, was, gpu);
      pos, remaining := pos + chunk, remaining - chunk;
    }
    MatchesFlat(host[..], dst, size, gpu, pages, offset);
    OutsideWritten(was, host[..], dst, Flat(gpu, pages, offset, size));
  }

  /** What is left of the page, or of the transfer. */
  function ChunkAt(k: nat, remaining: nat): (chunk: nat)
    requires remaining > 0
    ensures 0 < chunk <= remaining && OffsetOf(k) + chunk <= PAGE
  {
    var chunk := PAGE - OffsetOf(k);
    if chunk > remaining then remaining else chunk
  }

  /** One step of the walk: the rest of the page at offset + pos, or of the transfer. */
  method ReadChunk(host: array<Byte>, dst: nat, bar: array<Byte>, pages: seq<nat>, offset: nat, pos: nat,
                   remaining: nat, ghost was: seq<Byte>, ghost gpu: seq<Byte>)
    returns (chunk: nat)
    requires host != bar && Pinned(pages, bar.Length) && bar[..] == gpu
    requires remaining > 0 && InBuffer(pages, offset + pos) && dst + pos + remaining <= host.Length
    requires Matches(host[..], dst, pos, gpu, pages, offset) && SameOutside(was, host[..], dst, pos)
    modifies host
    ensures 0 < chunk <= remaining
    ensures Matches(host[..], dst, pos + chunk, gpu, pages, offset) && SameOutside(was, host[..], dst, pos + chunk)
  {
    ghost var before := host[..];
    var k := offset + pos;
    PageInRange(pages, k);
    chunk := ChunkAt(k, remaining);
    ReadPage(host, dst + pos, bar, pages[PageOf(k)], OffsetOf(k), chunk);
    ChunkRead(before, host[..], dst + pos, chunk, gpu, pages, k);
    MatchesGrow(before, host[..], dst, pos, chunk, gpu, pages, offset);
    OutsideGrows(was, before, host[..], dst, pos, chunk);
  }

  ghost predicate SameOutside(was: seq<Byte>, now: seq<Byte>, at: nat, n: nat) {
    |was| == |now| && forall x :: 0 <= x < |now| && !(at <= x < at + n) ==> now[x] == was[x]
  }

  lemma {:induction false} OutsideGrows(was: seq<Byte>, before: seq<Byte>, now: seq<Byte>, at: nat, pos: nat, n: nat)
    requires SameOutside(was, before, at, pos) && SameOutside(before, now, at + pos, n)
    ensures SameOutside(was, now, at, pos + n)
  {
  }

  lemma {:induction false} OutsideWritten(was: seq<Byte>, now: seq<Byte>, at: nat, bytes: seq<Byte>)
    requires at + |bytes| <= |now| && SameOutside(was, now, at, |bytes|) && now[at..at + |bytes|] == bytes
    ensures Written(was, now, at, bytes)
  {
    forall x | at <= x < at + |bytes| ensures now[x] == bytes[x - at] {
      assert now[at..at + |bytes|][x - at] == now[x];
    }
  }

  lemma {:induction false} ChunkRead(before: seq<Byte>, after: seq<Byte>, to: nat, n: nat, bar: seq<Byte>,
                                     pages: seq<nat>, k: nat)
    requires Pinned(pages, |bar|) && PageOf(k) < |pages| && OffsetOf(k) + n <= PAGE
    requires Written(before, after, to, bar[Address(pages, k)..Address(pages, k) + n])
    ensures Matches(after, to, n, bar, pages, k) && SameOutside(before, after, to, n)
  {
    forall x | to <= x < to + n ensures Holds(after[x], bar, pages, k + (x - to)) {
      WithinPage(k, x - to);
    }
  }

  lemma {:induction false} MatchesGrow(before: seq<Byte>, after: seq<Byte>, from: nat, pos: nat, n: nat,
                                       bar: seq<Byte>, pages: seq<nat>, offset: nat)
    requires Matches(before, from, pos, bar, pages, offset) && Matches(after, from + pos, n, bar, pages, offset + pos)
    requires SameOutside(before, after, from + pos, n)
    ensures Matches(after, from, pos + n, bar, pages, offset)
  {
    forall x | from <= x < from + (pos + n) ensures Holds(after[x], bar, pages, offset + (x - from)) {
      if x >= from + pos {
        assert Holds(after[x], bar, pages, offset + pos + (x - (from + pos)));
      }
    }
  }

  /** gpu_bar_memcpy_toio. */
  method MemcpyToIo(bar: array<Byte>, pages: seq<nat>, offset: nat, host: array<Byte>, src: nat, size: nat)
    requires host != bar && Pinned(pages, bar.Length)
    requires offset + size <= |pages| * PAGE && src + size <= host.Length
    modifies bar
    ensures Flat(bar[..], pages, offset, size) == host[src..src + size]
    ensures Elsewhere(old(bar[..]), bar[..], pages, offset, size)
  {
    var remaining: nat, pos: nat := size, 0;
    ghost var was, bytes := bar[..], host[..];
    while remaining > 0
      invariant pos + remaining == size && host[..] == bytes
      invariant Matches(bytes, src, pos, bar[..], pages, offset) && Elsewhere(was, bar[..], pages, offset, pos)
    {
      var chunk := WriteChunk(bar, pages, offset, host, src, pos, remaining, was, bytes);
      pos, remaining := pos + chunk, remaining - chunk;
    }
    MatchesFlat(bytes, src, size, bar[..], pages, offset);
  }

  /** One step of the walk. */
  method WriteChunk(bar: array<Byte>, pages: seq<nat>, offset: nat, host: array<Byte>, src: nat, pos: nat,
                    remaining: nat, ghost was: seq<Byte>, ghost bytes: seq<Byte>)
    returns (chunk: nat)
    requires host != bar && Pinned(pages, bar.Length) && host[..] == bytes
    requires remaining > 0 && InBuffer(pages, offset + pos) && src + pos + remaining <= host.Length
    requires Matches(bytes, src, pos, bar[..], pages, offset) && Elsewhere(was, bar[..], pages, offset, pos)
    modifies bar
    ensures 0 < chunk <= remaining
    ensures Matches(bytes, src, pos + chunk, bar[..], pages, offset)
    ensures Elsewhere(was, bar[..], pages, offset, pos + chunk)
  {
    ghost var before := bar[..];
    var k := offset + pos;
    PageInRange(pages, k);
    chunk := ChunkAt(k, remaining);
    WritePage(bar, pages[PageOf(k)], OffsetOf(k), host, src + pos, chunk);
    WriteAdvances(was, before, bar[..], pages, offset, pos, bytes, src, chunk);
  }

  lemma {:induction false} WriteAdvances(was: seq<Byte>, before: seq<Byte>, after: seq<Byte>, pages: seq<nat>,
                                         offset: nat, pos: nat, bytes: seq<Byte>, src: nat, n: nat)
    requires Pinned(pages, |after|) && PageOf(offset + pos) < |pages| && OffsetOf(offset + pos) + n <= PAGE
    requires src + pos + n <= |bytes|
    requires Written(before, after, Address(pages, offset + pos), bytes[src + pos..src + pos + n])
    requires Matches(bytes, src, pos, before, pages, offset) && Elsewhere(was, before, pages, offset, pos)
    ensures Matches(bytes, src, pos + n, after, pages, offset) && Elsewhere(was, after, pages, offset, pos + n)
  {
    var chunk, k := bytes[src + pos..src + pos + n], offset + pos;
    ChunkLands(before, after, pages, k, chunk);
    assert |chunk| == n;
    WalkGrows(was, before, after, pages, offset, pos, n);
    MatchesStay(bytes, src, pos, n, before, after, pages, offset);
  }

  lemma {:induction false} MatchesStay(host: seq<Byte>, src: nat, pos: nat, n: nat,
                                       before: seq<Byte>, after: seq<Byte>, pages: seq<nat>, offset: nat)
    requires Pinned(pages, |after|) && src + pos + n <= |host|
    requires Matches(host, src, pos, before, pages, offset) && Elsewhere(before, after, pages, offset + pos, n)
    requires Matches(host[src + pos..src + pos + n], 0, n, after, pages, offset + pos)
    ensures Matches(host, src, pos + n, after, pages, offset)
  {
    forall x | src <= x < src + (pos + n) ensures Holds(host[x], after, pages, offset + (x - src)) {
      if x < src + pos {
        EarlierStays(host[x], before, after, pages, offset + (x - src), offset + pos, n);
      } else {
        var i := x - src - pos;
        assert host[src + pos..src + pos + n][i] == host[x];
        assert Holds(host[src + pos..src + pos + n][i], after, pages, offset + pos + (i - 0));
      }
    }
  }

  /** A stretch within one page is the bytes of the buffer from k on, and no others. */
  lemma {:induction false} ChunkLands(before: seq<Byte>, after: seq<Byte>, pages: seq<nat>, k: nat, chunk: seq<Byte>)
    requires Pinned(pages, |after|) && PageOf(k) < |pages| && OffsetOf(k) + |chunk| <= PAGE
    requires Written(before, after, Address(pages, k), chunk)
    ensures Matches(chunk, 0, |chunk|, after, pages, k)
    ensures Elsewhere(before, after, pages, k, |chunk|)
  {
    var at := Address(pages, k);
    forall x | 0 <= x < |chunk| ensures Holds(chunk[x], after, pages, k + (x - 0)) {
      WithinPage(k, x);
      assert after[at + x] == chunk[x];
    }
    forall a | 0 <= a < |after| && at <= a < at + |chunk| ensures Covers(pages, k, |chunk|, a) {
      WithinPage(k, a - at);
      assert Address(pages, k + (a - at)) == a;
    }
  }

  lemma {:induction false} WalkGrows(was: seq<Byte>, before: seq<Byte>, after: seq<Byte>, pages: seq<nat>,
                                     offset: nat, pos: nat, chunk: nat)
    requires Elsewhere(was, before, pages, offset, pos) && Elsewhere(before, after, pages, offset + pos, chunk)
    ensures Elsewhere(was, after, pages, offset, pos + chunk)
  {
    forall a | 0 <= a < |after| && !Covers(pages, offset, pos + chunk, a) ensures after[a] == was[a] {
      assert !Covers(pages, offset, pos, a);
      assert !Covers(pages, offset + pos, chunk, a);
    }
  }

  lemma {:induction false} EarlierStays(b: Byte, before: seq<Byte>, after: seq<Byte>, pages: seq<nat>, k: nat,
                                        from: nat, n: nat)
    requires Pinned(pages, |after|) && Elsewhere(before, after, pages, from, n) && !(from <= k < from + n)
    requires Holds(b, before, pages, k)
    ensures Holds(b, after, pages, k)
  {
    if Covers(pages, from, n, Address(pages, k)) {
      var j :| from <= j < from + n && PageOf(j) < |pages| && Address(pages, j) == Address(pages, k);
      AddressesDistinct(pages, |after|, j, k);
      assert false;
    }
  }

  // ------------------------------------------------------------------ round trips

  /** Host to GPU and back is the identity on the range, in whichever host buffer the bytes come
      back to. */
  method ThereAndBack(bar: array<Byte>, pages: seq<nat>, offset: nat, host: array<Byte>, back: array<Byte>, size: nat)
    requires host != bar && back != bar && Pinned(pages, bar.Length)
    requires offset + size <= |pages| * PAGE && offset + size <= host.Length && offset + size <= back.Length
    modifies bar, back
    ensures back[offset..offset + size] == old(host[offset..offset + size])
    ensures back[..offset] == old(back[..offset]) && back[offset + size..] == old(back[offset + size..])
  {
    MemcpyToIo(bar, pages, offset, host, offset, size);
    MemcpyFromIo(back, offset, bar, pages, offset, size);
  }

  // ------------------------------------------------------------ contiguous mapping

  ghost predicate Contiguous(pages: seq<nat>) {
    forall i :: 0 <= i < |pages| ==> pages[i] == Expected(pages, i)
  }

  function Expected(pages: seq<nat>, i: nat): nat
    requires i < |pages|
  {
    pages[0] + i * PAGE
  }

  /** The scan of dmaplane_gpu_pin. */
  method ScanContiguous(pages: seq<nat>) returns (contiguous: bool)
    requires |pages| > 0
    ensures contiguous <==> Contiguous(pages)
  {
    contiguous := true;
    var i := 1;
    while i < |pages|
      invariant 1 <= i <= |pages| && contiguous
      invariant forall j :: 0 <= j < i ==> pages[j] == Expected(pages, j)
    {
      if pages[i] != Expected(pages, i) {
        contiguous := false;
        break;
      }
      i := i + 1;
    }
  }

  /** One mapping from the first page on addresses the same bytes as the walk exactly when the
      scan succeeds. */
  lemma {:induction false} SingleMappingIff(pages: seq<nat>)
    requires |pages| > 0
    ensures Contiguous(pages) <==> forall k :: PageOf(k) < |pages| ==> Address(pages, k) == pages[0] + k
  {
    if Contiguous(pages) {
      forall k | PageOf(k) < |pages| ensures Address(pages, k) == pages[0] + k {
        assert pages[PageOf(k)] == Expected(pages, PageOf(k));
        assert k == PageOf(k) * PAGE + OffsetOf(k);
      }
    }
    if forall k :: PageOf(k) < |pages| ==> Address(pages, k) == pages[0] + k {
      forall i | 0 <= i < |pages| ensures pages[i] == Expected(pages, i) {
        PageStart(i);
        assert Address(pages, i * PAGE) == pages[0] + i * PAGE;
      }
    }
  }

  lemma {:induction false} PageStart(i: nat)
    ensures PageOf(i * PAGE) == i && OffsetOf(i * PAGE) == 0
  {
  }

  /** What a NIC reads through that mapping is what the walk reads. */
  lemma {:induction false} SingleMappingReads(bar: seq<Byte>, pages: seq<nat>, offset: nat, n: nat)
    requires Pinned(pages, |bar|) && |pages| > 0 && Contiguous(pages) && offset + n <= |pages| * PAGE
    ensures pages[0] + offset + n <= |bar|
    ensures Flat(bar, pages, offset, n) == bar[pages[0] + offset..pages[0] + offset + n]
  {
    var last := |pages| - 1;
    assert pages[last] == Expected(pages, last);
    SingleMappingIff(pages);
    forall i | 0 <= i < n ensures Flat(bar, pages, offset, n)[i] == bar[pages[0] + offset..pages[0] + offset + n][i] {
      PageInRange(pages, offset + i);
    }
  }
}
