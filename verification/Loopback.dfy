/** The loopback transfer (examples/kvcache/kvcache_sender.c): one process owns both ends, so
    credits, posted receives and completions are all in one place. */
module Loopback {
  import opened Arithmetic
  import opened Wire
  import opened LayerBitmap

  // ------------------------------------------------------------- chunk positions

  function Position(layer: nat, chunk: nat, chunks: nat): nat { layer * chunks + chunk }

  function LayerOf(i: nat, chunks: nat): nat
    requires chunks >= 1
  {
    i / chunks
  }

  function ChunkOf(i: nat, chunks: nat): (c: nat)
    requires chunks >= 1
    ensures c < chunks
  {
    i % chunks
  }

  lemma {:induction false} PositionsApart(a: nat, b: nat, c: nat, d: nat, chunks: nat)
    requires b < chunks && a < c
    ensures Position(a, b, chunks) < Position(c, d, chunks)
  {
    assert (c - a - 1) * chunks >= 0;
    assert c * chunks == (c - a - 1) * chunks + a * chunks + chunks;
  }

  /** Position is a bijection between pairs and numbers. */
  lemma {:induction false} PositionOf(i: nat, chunks: nat)
    requires chunks >= 1
    ensures Position(LayerOf(i, chunks), ChunkOf(i, chunks), chunks) == i
  {
  }

  lemma {:induction false} PositionUnique(layer: nat, chunk: nat, chunks: nat, i: nat)
    requires chunk < chunks
    ensures Position(layer, chunk, chunks) == i <==> layer == LayerOf(i, chunks) && chunk == ChunkOf(i, chunks)
  {
    PositionOf(i, chunks);
    if layer < LayerOf(i, chunks) {
      PositionsApart(layer, chunk, LayerOf(i, chunks), ChunkOf(i, chunks), chunks);
    } else if LayerOf(i, chunks) < layer {
      PositionsApart(LayerOf(i, chunks), ChunkOf(i, chunks), layer, chunk, chunks);
    }
  }

  lemma {:induction false} PositionBelow(layer: nat, chunk: nat, chunks: nat, layers: nat)
    requires chunk < chunks
    ensures Position(layer, chunk, chunks) < Position(layers, 0, chunks) <==> layer < layers
  {
    if layer < layers {
      PositionsApart(layer, chunk, layers, 0, chunks);
    } else if layer > layers {
      PositionsApart(layers, 0, layer, chunk, chunks);
    }
  }

  /** The immediate of chunk number i. */
  function ImmOf(i: nat, chunks: nat): nat
    requires chunks >= 1
  {
    ImmEncode(LayerOf(i, chunks), ChunkOf(i, chunks))
  }

  /** Up to 1024 layers of up to 63 chunks the immediate decodes and is not the sentinel. */
  lemma {:induction false} ImmDecodes(i: nat, chunks: nat, layers: nat)
    requires 1 <= chunks <= 63 && layers <= MAX_LAYERS && i < Position(layers, 0, chunks)
    ensures ImmOf(i, chunks) != SENTINEL && LayerOf(i, chunks) < layers
    ensures ImmLayer(ImmOf(i, chunks)) == LayerOf(i, chunks) && ImmChunk(ImmOf(i, chunks)) == ChunkOf(i, chunks)
  {
    PositionOf(i, chunks);
    PositionBelow(LayerOf(i, chunks), ChunkOf(i, chunks), chunks, layers);
    ImmRoundTrip(LayerOf(i, chunks), ChunkOf(i, chunks));
  }

  // --------------------------------------------------------------------- fabric

  /** Both memory regions, the receive queue of QP-B and its completion queue. */
  class Fabric {
    const src: seq<Byte>
    const dst: array<Byte>
    const cqDepth: nat
    var posted: nat
    var cq: seq<nat>

    constructor (src: seq<Byte>, dst: array<Byte>, cqDepth: nat)
      ensures this.src == src && this.dst == dst && this.cqDepth == cqDepth && posted == 0 && cq == []
    {
      this.src, this.dst, this.cqDepth, posted, cq := src, dst, cqDepth, 0, [];
    }

    method PostRecv()
      modifies this`posted
      ensures posted == old(posted) + 1
    {
      posted := posted + 1;
    }

    /** RDMA WRITE with immediate.  Without a posted receive it would not complete; with the
        completion queue full it fails. */
    method WriteImm(off: nat, size: nat, imm: nat) returns (ok: bool)
      requires posted >= 1 && off + size <= |src| == dst.Length
      modifies this`posted, this`cq, dst
      ensures ok <==> |old(cq)| < cqDepth
      ensures ok ==> posted == old(posted) - 1 && cq == old(cq) + [imm]
      ensures ok ==> forall x :: 0 <= x < dst.Length ==> dst[x] == if off <= x < off + size then src[x] else old(dst[x])
    {
      if |cq| >= cqDepth {
        return false;
      }
      for i := off to off + size
        invariant forall x :: 0 <= x < dst.Length ==> dst[x] == if off <= x < i then src[x] else old(dst[x])
        invariant posted == old(posted) && cq == old(cq)
      {
        dst[i] := src[i];
      }
      posted, cq := posted - 1, cq + [imm];
      ok := true;
    }

    /** Poll of the receive CQ: without a completion it would time out. */
    method PollRecv() returns (imm: nat)
      requires cq != []
      modifies this`cq
      ensures imm == old(cq[0]) && cq == old(cq[1..])
    {
      imm, cq := cq[0], cq[1..];
    }
  }

  /** The completions not yet polled are those of chunks done .. sent, in order. */
  ghost predicate Queued(cq: seq<nat>, done: nat, sent: nat, chunks: nat)
    requires chunks >= 1
  {
    |cq| + done == sent && forall i :: 0 <= i < |cq| ==> QueuedAt(cq[i], done + i, chunks)
  }

  predicate QueuedAt(imm: nat, i: nat, chunks: nat)
    requires chunks >= 1
  {
    imm == ImmOf(i, chunks)
  }

  /** The bitmap holds exactly the first done chunks. */
  ghost predicate Tracked(bm: Bitmap, done: nat)
    requires bm.Valid()
    reads bm.bits
  {
    forall l, c :: 0 <= l < MAX_LAYERS && 0 <= c < bm.chunks ==> (bm.Got(l, c) <==> Position(l, c, bm.chunks) < done)
  }

  lemma {:induction false} QueuePops(cq: seq<nat>, done: nat, sent: nat, chunks: nat)
    requires chunks >= 1 && Queued(cq, done, sent, chunks) && cq != []
    ensures cq[0] == ImmOf(done, chunks) && Queued(cq[1..], done + 1, sent, chunks)
  {
    assert QueuedAt(cq[0], done + 0, chunks);
    forall i | 0 <= i < |cq[1..]| ensures QueuedAt(cq[1..][i], done + 1 + i, chunks) {
      assert QueuedAt(cq[i + 1], done + (i + 1), chunks);
    }
  }

  /** The bitmap is complete exactly when every chunk has been polled. */
  lemma {:induction false} CompleteMeansDone(bm: Bitmap, done: nat)
    requires bm.Valid() && Tracked(bm, done) && bm.layers >= 1 && done <= Position(bm.layers, 0, bm.chunks)
    ensures bm.Complete() <==> done == Position(bm.layers, 0, bm.chunks)
  {
    if done < Position(bm.layers, 0, bm.chunks) {
      var l, c := LayerOf(done, bm.chunks), ChunkOf(done, bm.chunks);
      PositionOf(done, bm.chunks);
      PositionBelow(l, c, bm.chunks, bm.layers);
      assert !bm.Got(l, c);
      assert !AllSet(bm.bits[l], bm.chunks);
    }
    if done == Position(bm.layers, 0, bm.chunks) {
      forall l | 0 <= l < bm.layers ensures AllSet(bm.bits[l], bm.chunks) {
        forall c | 0 <= c < bm.chunks ensures Has(bm.bits[l], c) {
          PositionBelow(l, c, bm.chunks, bm.layers);
          assert bm.Got(l, c);
        }
      }
    }
  }

  // ------------------------------------------------------------------- transfer

  /** recv_loop_poll_and_track: 1 for the sentinel, 0 for a chunk, which is then marked. */
  method PollAndTrack(f: Fabric, bm: Bitmap, ghost done: nat) returns (rc: int)
    requires bm.Valid() && done < Position(bm.layers, 0, bm.chunks) && bm.bits as object != f.dst
    requires f.cq != [] && Tracked(bm, done) && (f.cq[0] == ImmOf(done, bm.chunks) || f.cq[0] == SENTINEL)
    modifies f`cq, bm.bits
    ensures f.cq == old(f.cq[1..])
    ensures old(f.cq[0]) == SENTINEL ==> rc == 1 && Tracked(bm, done)
    ensures old(f.cq[0]) != SENTINEL ==> rc == 0 && Tracked(bm, done + 1)
  {
    ImmDecodes(done, bm.chunks, bm.layers);
    var imm := f.PollRecv();
    if imm == SENTINEL {
      return 1;
    }
    forall l, c | 0 <= l < MAX_LAYERS && 0 <= c < bm.chunks
      ensures Position(l, c, bm.chunks) < done + 1 <==>
        Position(l, c, bm.chunks) < done || (l == ImmLayer(imm) && c == ImmChunk(imm))
    {
      PositionUnique(l, c, bm.chunks, done);
    }
    bm.Set(ImmLayer(imm), ImmChunk(imm));
    rc := 0;
  }

  /** What holds throughout the send loop: sent chunks are in place, credits are the posted
      receives, and with the unpolled completions they make up the window. */
  ghost predicate Balanced(f: Fabric, bm: Bitmap, credits: int, window: nat, done: nat, sent: nat, size: nat)
    requires bm.Valid()
    reads f, f.dst, bm.bits
  {
    && Queued(f.cq, done, sent, bm.chunks) && Tracked(bm, done)
    && credits == f.posted && credits + |f.cq| == window
    && |f.src| == f.dst.Length && sent * size <= |f.src| && f.dst[..sent * size] == f.src[..sent * size]
  }

  /** Between two turns of the send loop completions are polled only for want of credit. */
  ghost predicate Sending(f: Fabric, bm: Bitmap, credits: int, window: nat, done: nat, sent: nat, size: nat)
    requires bm.Valid()
    reads f, f.dst, bm.bits
  {
    Balanced(f, bm, credits, window, done, sent, size) && |f.cq| == Least(sent, window)
  }

  /** The completion queue holds what n sends leave unpolled. */
  predicate Room(f: Fabric, n: nat, window: nat) { Least(n, window) <= f.cqDepth }

  /** Stall until there is a credit: poll one completion, post one receive. */
  method Stall(f: Fabric, bm: Bitmap, credits: int, window: nat, ghost done: nat, ghost sent: nat, ghost size: nat)
    returns (credits': int, ghost done': nat)
    requires bm.Valid() && bm.bits as object != f.dst && window >= 1 && credits <= 0
    requires sent <= Position(bm.layers, 0, bm.chunks) && bm.layers <= MAX_LAYERS
    requires Balanced(f, bm, credits, window, done, sent, size)
    modifies f`cq, f`posted, bm.bits
    ensures credits' == 1 && done' <= sent && Balanced(f, bm, credits', window, done', sent, size)
  {
    credits', done' := credits, done;
    while credits' <= 0
      invariant credits' <= 1 && done' <= sent && Balanced(f, bm, credits', window, done', sent, size)
      decreases sent - done'
    {
      QueuePops(f.cq, done', sent, bm.chunks);
      ImmDecodes(done', bm.chunks, bm.layers);
      var rc := PollAndTrack(f, bm, done');
      f.PostRecv();
      credits', done' := credits' + 1, done' + 1;
    }
  }

  /** One chunk: its credit is a posted receive. */
  method SendChunk(f: Fabric, bm: Bitmap, credits: int, window: nat, layer: nat, chunk: nat, size: nat,
                   ghost done: nat, ghost sent: nat)
    returns (ok: bool, credits': int)
    requires bm.Valid() && bm.bits as object != f.dst && chunk < bm.chunks && sent == Position(layer, chunk, bm.chunks)
    requires credits >= 1 && Balanced(f, bm, credits, window, done, sent, size)
    requires (sent + 1) * size <= |f.src|
    modifies f`cq, f`posted, f.dst
    ensures ok <==> |old(f.cq)| < f.cqDepth
    ensures ok ==> Balanced(f, bm, credits', window, done, sent + 1, size)
  {
    var idx := layer * bm.chunks + chunk;
    var off := idx * size;
    PositionUnique(layer, chunk, bm.chunks, sent);
    assert (sent + 1) * size == off + size;
    ok := f.WriteImm(off, size, ImmEncode(layer, chunk));
    credits' := credits - 1;
    QueueGrows(old(f.cq), done, sent, bm.chunks);
  }

  lemma {:induction false} QueueGrows(cq: seq<nat>, done: nat, sent: nat, chunks: nat)
    requires chunks >= 1 && Queued(cq, done, sent, chunks)
    ensures Queued(cq + [ImmOf(sent, chunks)], done, sent + 1, chunks)
  {
    var cq' := cq + [ImmOf(sent, chunks)];
    forall i | 0 <= i < |cq'| ensures QueuedAt(cq'[i], done + i, chunks) {
      if i < |cq| {
        assert QueuedAt(cq[i], done + i, chunks);
      }
    }
  }

  /** One turn of the send loop: stall without credit, then send. */
  method SendNext(f: Fabric, bm: Bitmap, credits: int, window: nat, layer: nat, chunk: nat, size: nat, ghost done: nat)
    returns (ok: bool, credits': int, ghost done': nat)
    requires bm.Valid() && bm.bits as object != f.dst && window >= 1 && layer < bm.layers && chunk < bm.chunks
    requires done <= Position(layer, chunk, bm.chunks)
    requires Sending(f, bm, credits, window, done, Position(layer, chunk, bm.chunks), size)
    requires |f.src| == Position(bm.layers, 0, bm.chunks) * size
    modifies f`cq, f`posted, f.dst, bm.bits
    ensures done' <= Position(layer, chunk, bm.chunks)
    ensures ok <==> Room(f, Position(layer, chunk, bm.chunks) + 1, window)
    ensures ok ==> Sending(f, bm, credits', window, done', Position(layer, chunk, bm.chunks) + 1, size)
  {
    credits', done' := credits, done;
    ghost var sent := Position(layer, chunk, bm.chunks);
    PositionBelow(layer, chunk, bm.chunks, bm.layers);
    if credits' <= 0 {
      credits', done' := Stall(f, bm, credits', window, done', sent, size);
    }
    Product(sent + 1, Position(bm.layers, 0, bm.chunks), size);
    ok, credits' := SendChunk(f, bm, credits', window, layer, chunk, size, done', sent);
  }

  /** The chunks of one layer. */
  method SendLayer(f: Fabric, bm: Bitmap, credits: int, window: nat, layer: nat, size: nat, ghost done: nat)
    returns (ok: bool, credits': int, ghost done': nat)
    requires bm.Valid() && bm.bits as object != f.dst && window >= 1 && layer < bm.layers
    requires done <= Position(layer, 0, bm.chunks) && Room(f, Position(layer, 0, bm.chunks), window)
    requires Sending(f, bm, credits, window, done, Position(layer, 0, bm.chunks), size)
    requires |f.src| == Position(bm.layers, 0, bm.chunks) * size
    modifies f`cq, f`posted, f.dst, bm.bits
    ensures ok <==> Room(f, Position(layer + 1, 0, bm.chunks), window)
    ensures ok ==> done' <= Position(layer + 1, 0, bm.chunks)
    ensures ok ==> Sending(f, bm, credits', window, done', Position(layer + 1, 0, bm.chunks), size)
  {
    ok, credits', done' := true, credits, done;
    NextLayer(layer, bm.chunks);
    for c := 0 to bm.chunks
      invariant ok && done' <= Position(layer, c, bm.chunks) && Room(f, Position(layer, c, bm.chunks), window)
      invariant Sending(f, bm, credits', window, done', Position(layer, c, bm.chunks), size)
    {
      ok, credits', done' := SendNext(f, bm, credits', window, layer, c, size, done');
      NextChunk(layer, c, bm.chunks);
      if !ok {
        return;
      }
    }
  }

  lemma {:induction false} NextChunk(layer: nat, chunk: nat, chunks: nat)
    ensures Position(layer, chunk + 1, chunks) == Position(layer, chunk, chunks) + 1
  {
  }

  lemma {:induction false} NextLayer(layer: nat, chunks: nat)
    ensures Position(layer, chunks, chunks) == Position(layer + 1, 0, chunks)
  {
  }

  /** The send loop over every layer and chunk. */
  method SendAll(f: Fabric, bm: Bitmap, window: nat, size: nat) returns (ok: bool, credits: int, ghost done: nat)
    requires bm.Valid() && bm.bits as object != f.dst && window >= 1 && f.posted == window && f.cq == []
    requires Tracked(bm, 0) && |f.src| == f.dst.Length == Position(bm.layers, 0, bm.chunks) * size
    modifies f`cq, f`posted, f.dst, bm.bits
    ensures ok <==> Room(f, Position(bm.layers, 0, bm.chunks), window)
    ensures ok ==> done <= Position(bm.layers, 0, bm.chunks)
    ensures ok ==> Sending(f, bm, credits, window, done, Position(bm.layers, 0, bm.chunks), size)
  {
    ok, credits, done := true, window, 0;
    for l := 0 to bm.layers
      invariant ok && done <= Position(l, 0, bm.chunks) && Room(f, Position(l, 0, bm.chunks), window)
      invariant Sending(f, bm, credits, window, done, Position(l, 0, bm.chunks), size)
    {
      ok, credits, done := SendLayer(f, bm, credits, window, l, size, done);
      if !ok {
        LaterLayers(l + 1, bm.layers, bm.chunks);
        return;
      }
    }
  }

  lemma {:induction false} LaterLayers(a: nat, b: nat, chunks: nat)
    requires a <= b
    ensures Position(a, 0, chunks) <= Position(b, 0, chunks)
  {
    Product(a, b, chunks);
  }

  /** Drain until the bitmap is complete; one completion per missing chunk, in order. */
  method Drain(f: Fabric, bm: Bitmap, ghost done: nat)
    requires bm.Valid() && bm.bits as object != f.dst && bm.layers >= 1
    requires done <= Position(bm.layers, 0, bm.chunks) && Tracked(bm, done)
    requires f.cq != [] && f.cq[|f.cq| - 1] == SENTINEL
    requires Queued(f.cq[..|f.cq| - 1], done, Position(bm.layers, 0, bm.chunks), bm.chunks)
    modifies f`cq, bm.bits
    ensures bm.Complete() && f.cq == [SENTINEL]
  {
    ghost var total, n := Position(bm.layers, 0, bm.chunks), done;
    CompleteMeansDone(bm, n);
    var complete := bm.AllComplete();
    while !complete
      invariant n <= total && Tracked(bm, n) && (complete <==> n == total)
      invariant f.cq != [] && f.cq[|f.cq| - 1] == SENTINEL
      invariant Queued(f.cq[..|f.cq| - 1], n, total, bm.chunks)
      decreases total - n
    {
      QueuePops(f.cq[..|f.cq| - 1], n, total, bm.chunks);
      ImmDecodes(n, bm.chunks, bm.layers);
      assert f.cq[1..][..|f.cq| - 2] == f.cq[..|f.cq| - 1][1..];
      var rc := PollAndTrack(f, bm, n);
      n := n + 1;
      if rc == 1 {
        break;
      }
      CompleteMeansDone(bm, n);
      complete := bm.AllComplete();
    }
    CompleteMeansDone(bm, n);
  }

  /** One iteration of run_loopback.  It succeeds exactly when the completion queue holds a full
      window, or every chunk, and the sentinel.  The buffer holds at least the sentinel's four
      bytes. */
  method RunIteration(f: Fabric, bm: Bitmap, creditWindow: nat, size: nat) returns (ok: bool, credits: int)
    requires bm.Valid() && bm.bits as object != f.dst && bm.layers >= 1 && creditWindow >= 1
    requires f.posted == 0 && f.cq == [] && (forall l, c :: 0 <= l < MAX_LAYERS && 0 <= c < 64 ==> !bm.Got(l, c))
    requires |f.src| == f.dst.Length == Position(bm.layers, 0, bm.chunks) * size && |f.src| >= 4
    modifies f`cq, f`posted, f.dst, bm.bits
    ensures ok <==> Least(Position(bm.layers, 0, bm.chunks), creditWindow) + 1 <= f.cqDepth
    ensures ok ==> f.dst[..] == f.src
    ensures ok ==> bm.Complete() && f.cq == []
    ensures ok ==> credits == (if creditWindow > Position(bm.layers, 0, bm.chunks) then 0 else -1)
    ensures ok ==> f.posted == credits + 1
  {
    var totalChunks := bm.layers * bm.chunks;
    var initialRecvs := creditWindow;
    if initialRecvs > totalChunks + 1 {
      initialRecvs := totalChunks + 1;
    }
    for i := 0 to initialRecvs
      invariant f.posted == i && f.cq == []
      modifies f`posted
    {
      f.PostRecv();
    }
    ghost var done;
    ok, credits, done := SendAll(f, bm, initialRecvs, size);
    if !ok {
      return;
    }
    assert f.dst[..] == f.src;
    f.PostRecv();
    ghost var cq := f.cq;
    ok := f.WriteImm(0, 4, SENTINEL);
    if !ok {
      return;
    }
    credits := credits - 1;
    assert f.dst[..] == f.src;
    assert f.cq[..|f.cq| - 1] == cq;
    Drain(f, bm, done);
    var imm := f.PollRecv();
  }
}
