/** KVCache packing (examples/kvcache/kvcache_inference.py): layers are copied
    back to back into one staging buffer, a manifest records where, and the
    receiver rebuilds every tensor as a strided view of the landing buffer. */
module KvPacking {
  import opened Arithmetic
  import opened Wrappers
  import opened Wire

  datatype Dtype = Dtype(name: string, size: nat)

  datatype Shape = Shape(batch: nat, heads: nat, seqLen: nat, headDim: nat)

  datatype Index = Index(b: nat, h: nat, s: nat, d: nat)

  /** A contiguous 4-D tensor: its elements in memory order, each a fixed number of bytes. */
  datatype Tensor = Tensor(shape: Shape, dtype: Dtype, elems: seq<seq<Byte>>)

  datatype Layer = Layer(k: Tensor, v: Tensor)

  datatype Entry = Entry(layer: nat, kOffset: nat, kSize: nat, vOffset: nat, vSize: nat,
                         shape: Shape, dtype: Dtype)

  function NumElements(s: Shape): nat {
    s.batch * s.heads * s.seqLen * s.headDim
  }

  predicate InShape(i: Index, s: Shape) {
    i.b < s.batch && i.h < s.heads && i.s < s.seqLen && i.d < s.headDim
  }

  predicate WellFormed(t: Tensor) {
    && t.dtype.size > 0
    && |t.elems| == NumElements(t.shape)
    && forall j :: 0 <= j < |t.elems| ==> |t.elems[j]| == t.dtype.size
  }

  predicate WellFormedLayers(layers: seq<Layer>) {
    forall i :: 0 <= i < |layers| ==> WellFormed(layers[i].k) && WellFormed(layers[i].v)
  }

  /** K and V of each layer share shape and dtype: the manifest records K's only. */
  predicate Uniform(layers: seq<Layer>) {
    forall i :: 0 <= i < |layers| ==>
      layers[i].k.shape == layers[i].v.shape && layers[i].k.dtype == layers[i].v.dtype
  }

  /** Position of an element of a contiguous tensor, innermost dimension last. */
  function RowMajor(i: Index, s: Shape): nat {
    Nest(Nest(Nest(i.b, s.heads, i.h), s.seqLen, i.s), s.headDim, i.d)
  }

  function Nest(outer: nat, size: nat, inner: nat): nat { outer * size + inner }

  lemma {:induction false} NestInBounds(a: nat, n: nat, b: nat, m: nat)
    requires a < n && b < m
    ensures Nest(a, m, b) < n * m
  {
    assert (a + 1) * m <= n * m;
  }

  lemma {:induction false} RowMajorInBounds(i: Index, s: Shape)
    requires InShape(i, s)
    ensures RowMajor(i, s) < NumElements(s)
  {
    var p := Nest(i.b, s.heads, i.h);
    NestInBounds(i.b, s.batch, i.h, s.heads);
    NestInBounds(p, s.batch * s.heads, i.s, s.seqLen);
    NestInBounds(Nest(p, s.seqLen, i.s), s.batch * s.heads * s.seqLen, i.d, s.headDim);
  }

  lemma {:induction false} Gap(a: nat, b: nat, m: nat)
    ensures a < b ==> a * m + m <= b * m
  {
    if a < b {
      assert (a + 1) * m <= b * m;
    }
  }

  lemma {:induction false} NestInjective(q: nat, r: nat, q': nat, r': nat, m: nat)
    requires r < m && r' < m && Nest(q, m, r) == Nest(q', m, r')
    ensures q == q' && r == r'
  {
    Gap(q, q', m);
    Gap(q', q, m);
  }

  /** No two indices share a position, so no element of a tensor hides another. */
  lemma {:induction false} RowMajorInjective(i: Index, j: Index, s: Shape)
    requires InShape(i, s) && InShape(j, s) && RowMajor(i, s) == RowMajor(j, s)
    ensures i == j
  {
    var p, p' := Nest(i.b, s.heads, i.h), Nest(j.b, s.heads, j.h);
    var q, q' := Nest(p, s.seqLen, i.s), Nest(p', s.seqLen, j.s);
    NestInjective(q, i.d, q', j.d, s.headDim);
    NestInjective(p, i.s, p', j.s, s.seqLen);
    NestInjective(i.b, i.h, j.b, j.h, s.heads);
  }

  /** Index i comes before index j: the head dimension varies fastest, the batch slowest. */
  predicate Earlier(i: Index, j: Index) {
    || i.b < j.b
    || (i.b == j.b && (i.h < j.h || (i.h == j.h && (i.s < j.s || (i.s == j.s && i.d < j.d)))))
  }

  /** Elements lie in that order. */
  lemma {:induction false} RowMajorOrders(i: Index, j: Index, s: Shape)
    requires InShape(i, s) && InShape(j, s)
    ensures RowMajor(i, s) < RowMajor(j, s) <==> Earlier(i, j)
  {
    var p, p' := Nest(i.b, s.heads, i.h), Nest(j.b, s.heads, j.h);
    NestOrders(i.b, i.h, j.b, j.h, s.heads);
    NestOrders(p, i.s, p', j.s, s.seqLen);
    NestOrders(Nest(p, s.seqLen, i.s), i.d, Nest(p', s.seqLen, j.s), j.d, s.headDim);
    if p == p' {
      NestInjective(i.b, i.h, j.b, j.h, s.heads);
    }
    if Nest(p, s.seqLen, i.s) == Nest(p', s.seqLen, j.s) {
      NestInjective(p, i.s, p', j.s, s.seqLen);
    }
  }

  lemma {:induction false} NestOrders(q: nat, r: nat, q': nat, r': nat, m: nat)
    requires r < m && r' < m
    ensures Nest(q, m, r) < Nest(q', m, r') <==> q < q' || (q == q' && r < r')
  {
    Gap(q, q', m);
    Gap(q', q, m);
  }

  // ---------------------------------------------------------------- bytes

  /** The flat uint8 view of a tensor. */
  function Flat(elems: seq<seq<Byte>>): seq<Byte> {
    if elems == [] then [] else Flat(elems[..|elems| - 1]) + elems[|elems| - 1]
  }

  function TensorBytes(t: Tensor): seq<Byte> { Flat(t.elems) }

  lemma {:induction false} FlatLength(elems: seq<seq<Byte>>, size: nat)
    requires forall j :: 0 <= j < |elems| ==> |elems[j]| == size
    ensures |Flat(elems)| == |elems| * size
  {
    if elems != [] {
      FlatLength(elems[..|elems| - 1], size);
      assert |elems| * size == (|elems| - 1) * size + size;
    }
  }

  lemma {:induction false} FlatElement(elems: seq<seq<Byte>>, size: nat, j: nat)
    requires forall j :: 0 <= j < |elems| ==> |elems[j]| == size
    requires j < |elems|
    ensures j * size + size <= |Flat(elems)|
    ensures Flat(elems)[j * size..j * size + size] == elems[j]
  {
    var n := |elems| - 1;
    var front := elems[..n];
    if j < n {
      FlatElement(front, size, j);
      PrefixSlice(Flat(front), elems[n], j * size, j * size + size);
    } else {
      FlatLength(front, size);
      SuffixSlice(Flat(front), elems[n]);
    }
  }

  lemma {:induction false} PrefixSlice(a: seq<Byte>, b: seq<Byte>, lo: nat, hi: nat)
    requires lo <= hi <= |a|
    ensures (a + b)[lo..hi] == a[lo..hi]
  {
  }

  lemma {:induction false} SuffixSlice(a: seq<Byte>, b: seq<Byte>)
    ensures (a + b)[|a|..|a| + |b|] == b
  {
  }

  // ------------------------------------------------------------- packing

  function Pack(layers: seq<Layer>): seq<Byte> {
    if layers == [] then []
    else Pack(layers[..|layers| - 1])
         + TensorBytes(layers[|layers| - 1].k) + TensorBytes(layers[|layers| - 1].v)
  }

  function EntryFor(layer: nat, offset: nat, l: Layer): Entry {
    var kBytes := |l.k.elems| * l.k.dtype.size;
    Entry(layer, offset, kBytes, offset + kBytes, |l.v.elems| * l.v.dtype.size, l.k.shape, l.k.dtype)
  }

  function ManifestOf(layers: seq<Layer>): (m: seq<Entry>)
    ensures |m| == |layers|
  {
    if layers == [] then []
    else
      var front := layers[..|layers| - 1];
      ManifestOf(front) + [EntryFor(|front|, |Pack(front)|, layers[|front|])]
  }

  /** Total bytes from the layers alone, as kvcache_size_from_layers adds them up. */
  method SizeFromLayers(layers: seq<Layer>) returns (total: nat)
    requires WellFormedLayers(layers)
    ensures total == |Pack(layers)|
  {
    total := 0;
    for i := 0 to |layers|
      invariant total == |Pack(layers[..i])|
    {
      PackStep(layers, i);
      total := total + |layers[i].k.elems| * layers[i].k.dtype.size;
      total := total + |layers[i].v.elems| * layers[i].v.dtype.size;
    }
    assert layers[..|layers|] == layers;
  }

  lemma {:induction false} PackStep(layers: seq<Layer>, i: nat)
    requires WellFormedLayers(layers) && i < |layers|
    ensures Pack(layers[..i + 1]) == Pack(layers[..i]) + TensorBytes(layers[i].k) + TensorBytes(layers[i].v)
    ensures |TensorBytes(layers[i].k)| == |layers[i].k.elems| * layers[i].k.dtype.size
    ensures |TensorBytes(layers[i].v)| == |layers[i].v.elems| * layers[i].v.dtype.size
    ensures ManifestOf(layers[..i + 1]) == ManifestOf(layers[..i]) + [EntryFor(i, |Pack(layers[..i])|, layers[i])]
  {
    assert layers[..i + 1][..i] == layers[..i];
    FlatLength(layers[i].k.elems, layers[i].k.dtype.size);
    FlatLength(layers[i].v.elems, layers[i].v.dtype.size);
  }

  /** staging_buf[offset:offset + n].copy_(src). */
  method CopyInto(staging: array<Byte>, offset: nat, src: seq<Byte>)
    requires offset + |src| <= staging.Length
    modifies staging
    ensures staging[..] == old(staging[..offset]) + src + old(staging[offset + |src|..])
  {
    forall j | 0 <= j < |src| {
      staging[offset + j] := src[j];
    }
  }

  /** A buffer whose first bytes are p and whose other bytes are those of s. */
  function Over(p: seq<Byte>, s: seq<Byte>): seq<Byte>
    requires |p| <= |s|
  {
    p + s[|p|..]
  }

  lemma OverExtends(p: seq<Byte>, src: seq<Byte>, s: seq<Byte>)
    requires |p| + |src| <= |s|
    ensures var b := Over(p, s);
      |b| == |s| && b[..|p|] + src + b[|p| + |src|..] == Over(p + src, s)
  {
  }

  /** Appends src to what the buffer holds up to offset. */
  method Append(staging: array<Byte>, ghost p: seq<Byte>, ghost s: seq<Byte>, offset: nat, src: seq<Byte>)
    requires offset == |p| && |p| + |src| <= |s| && staging[..] == Over(p, s)
    modifies staging
    ensures staging[..] == Over(p + src, s)
  {
    OverExtends(p, src, s);
    ghost var b := staging[..];
    assert staging[..offset] == b[..offset] && staging[offset + |src|..] == b[offset + |src|..];
    CopyInto(staging, offset, src);
  }

  /** One layer: K, then V, then its manifest entry. */
  method AppendLayer(staging: array<Byte>, ghost p: seq<Byte>, ghost s: seq<Byte>, offset: nat, i: nat, l: Layer)
    returns (offset': nat, e: Entry)
    requires WellFormed(l.k) && WellFormed(l.v)
    requires offset == |p| && |p + TensorBytes(l.k) + TensorBytes(l.v)| <= |s| && staging[..] == Over(p, s)
    modifies staging
    ensures offset' == |p + TensorBytes(l.k) + TensorBytes(l.v)| && e == EntryFor(i, offset, l)
    ensures staging[..] == Over(p + TensorBytes(l.k) + TensorBytes(l.v), s)
  {
    FlatLength(l.k.elems, l.k.dtype.size);
    FlatLength(l.v.elems, l.v.dtype.size);
    var kBytes := |l.k.elems| * l.k.dtype.size;
    var vBytes := |l.v.elems| * l.v.dtype.size;
    Append(staging, p, s, offset, TensorBytes(l.k));
    var kOffset := offset;
    offset' := offset + kBytes;
    Append(staging, p + TensorBytes(l.k), s, offset', TensorBytes(l.v));
    var vOffset := offset';
    offset' := offset' + vBytes;
    e := Entry(i, kOffset, kBytes, vOffset, vBytes, l.k.shape, l.k.dtype);
  }

  /** consolidate_kvcache: writes the staging buffer in place, layer by layer, and leaves the
      bytes after the packed ones as they were. */
  method Consolidate(layers: seq<Layer>, staging: array<Byte>) returns (total: nat, manifest: seq<Entry>)
    requires WellFormedLayers(layers) && |Pack(layers)| <= staging.Length
    modifies staging
    ensures total == |Pack(layers)|
    ensures staging[..] == Over(Pack(layers), old(staging[..]))
    ensures manifest == ManifestOf(layers)
  {
    ghost var s := staging[..];
    var offset := 0;
    manifest := [];
    for i := 0 to |layers|
      invariant offset == |Pack(layers[..i])| <= |s| == staging.Length
      invariant staging[..] == Over(Pack(layers[..i]), s)
      invariant manifest == ManifestOf(layers[..i])
    {
      PackStep(layers, i);
      PackPrefix(layers, i + 1);
      var e;
      offset, e := AppendLayer(staging, Pack(layers[..i]), s, offset, i, layers[i]);
      manifest := manifest + [e];
    }
    assert layers[..|layers|] == layers;
    total := offset;
  }

  /** The packing of the first i layers is a prefix of the whole packing. */
  lemma {:induction false} PackPrefix(layers: seq<Layer>, i: nat)
    requires WellFormedLayers(layers) && i <= |layers|
    ensures Pack(layers[..i]) <= Pack(layers)
    decreases |layers| - i
  {
    if i < |layers| {
      PackStep(layers, i);
      PackPrefix(layers, i + 1);
    } else {
      assert layers[..i] == layers;
    }
  }

  lemma {:induction false} ManifestAt(layers: seq<Layer>, i: nat)
    requires i < |layers|
    ensures ManifestOf(layers)[i] == EntryFor(i, |Pack(layers[..i])|, layers[i])
  {
    var front := layers[..|layers| - 1];
    if i < |front| {
      ManifestAt(front, i);
      assert front[..i] == layers[..i];
    }
  }

  predicate Follows(m: seq<Entry>, i: nat)
    requires 0 < i < |m|
  {
    m[i].kOffset == m[i - 1].vOffset + m[i - 1].vSize
  }

  /** The manifest's regions, in order K0, V0, K1, V1, ..., tile [0, total): each starts where
      the one before it ends, the first at 0 and the last ending at total. */
  lemma {:induction false} ManifestTiles(layers: seq<Layer>)
    requires WellFormedLayers(layers)
    ensures var m := ManifestOf(layers);
      && (|m| > 0 ==> m[0].kOffset == 0 && m[|m| - 1].vOffset + m[|m| - 1].vSize == |Pack(layers)|)
      && (|m| == 0 ==> |Pack(layers)| == 0)
      && (forall i :: 0 <= i < |m| ==> m[i].layer == i && m[i].kOffset + m[i].kSize == m[i].vOffset)
      && (forall i :: 0 < i < |m| ==> Follows(m, i))
  {
    forall i | 0 <= i < |layers|
      ensures ManifestOf(layers)[i] == EntryFor(i, |Pack(layers[..i])|, layers[i])
      ensures i > 0 ==> Follows(ManifestOf(layers), i)
    {
      ManifestAt(layers, i);
      if i > 0 {
        RegionEnd(layers, i - 1);
      }
    }
    if |layers| > 0 {
      RegionEnd(layers, |layers| - 1);
      assert layers[..|layers|] == layers;
    }
  }

  lemma {:induction false} RegionEnd(layers: seq<Layer>, i: nat)
    requires WellFormedLayers(layers) && i < |layers|
    ensures |Pack(layers[..i + 1])| == ManifestOf(layers)[i].vOffset + ManifestOf(layers)[i].vSize
  {
    ManifestAt(layers, i);
    PackStep(layers, i);
  }

  /** Two different tensors never share a byte of the packed buffer. */
  lemma {:induction false} ManifestDisjoint(layers: seq<Layer>, i: nat, j: nat)
    requires WellFormedLayers(layers) && i < j < |layers|
    ensures var m := ManifestOf(layers);
      m[i].kOffset + m[i].kSize <= m[i].vOffset && m[i].vOffset + m[i].vSize <= m[j].kOffset
    decreases j - i
  {
    ManifestTiles(layers);
    assert Follows(ManifestOf(layers), i + 1);
    if i + 1 < j {
      ManifestDisjoint(layers, i + 1, j);
    }
  }

  // ------------------------------------------------------ reconstruction

  /** torch.as_strided over a typed slice of the landing buffer: typed are the elements from
      the slice's start to the end of the storage, which is what as_strided may reach. */
  datatype View = View(typed: seq<seq<Byte>>, shape: Shape, dtype: Dtype,
                       strides: (nat, nat, nat, nat))
  {
    function Position(i: Index): nat {
      i.b * strides.0 + i.h * strides.1 + i.s * strides.2 + i.d * strides.3
    }
  }

  /** buf[lo:lo + n], which Python clamps to the buffer's end: where it starts, how long it is. */
  function SliceStart(buf: seq<Byte>, lo: nat): (l: nat)
    ensures l <= |buf|
  {
    if lo < |buf| then lo else |buf|
  }

  function SliceLength(buf: seq<Byte>, lo: nat, n: nat): nat {
    SliceStart(buf, lo + n) - SliceStart(buf, lo)
  }

  function Typed(bytes: seq<Byte>, size: nat): (r: seq<seq<Byte>>)
    requires size > 0
    ensures |r| == |bytes| / size
  {
    seq(|bytes| / size, j requires 0 <= j < |bytes| / size =>
      ElementFits(|bytes|, size, j); bytes[j * size..j * size + size])
  }

  lemma {:induction false} ElementFits(n: nat, size: nat, j: nat)
    requires size > 0 && j < n / size
    ensures j * size + size <= n
  {
    assert (j + 1) * size <= n / size * size <= n;
  }

  function Strides(s: Shape): (nat, nat, nat, nat) {
    (s.heads * s.seqLen * s.headDim, s.seqLen * s.headDim, s.headDim, 1)
  }

  /** One tensor of one manifest entry.  torch raises when the slice's bytes do not divide into
      elements, when the slice does not start at a multiple of the element size, and when the
      strides reach past the storage. */
  function ViewAt(buf: seq<Byte>, offset: nat, bytes: nat, shape: Shape, dtype: Dtype): Result<View> {
    var start := SliceStart(buf, offset);
    if dtype.size == 0 || SliceLength(buf, offset, bytes) % dtype.size != 0 then Err("view: size not divisible")
    else if start % dtype.size != 0 then Err("view: storage offset not divisible")
    else if start + NumElements(shape) * dtype.size > |buf| then Err("as_strided: out of bounds")
    else Ok(View(Typed(buf[start..], dtype.size), shape, dtype, Strides(shape)))
  }

  /** reconstruct_kvcache_zero_copy. */
  method Reconstruct(buf: seq<Byte>, manifest: seq<Entry>) returns (r: Result<seq<(View, View)>>)
    ensures r.Ok? ==> |r.value| == |manifest| && forall i :: 0 <= i < |manifest| ==>
      && ViewAt(buf, manifest[i].kOffset, manifest[i].kSize, manifest[i].shape, manifest[i].dtype) == Ok(r.value[i].0)
      && ViewAt(buf, manifest[i].vOffset, manifest[i].vSize, manifest[i].shape, manifest[i].dtype) == Ok(r.value[i].1)
    ensures r.Err? <==> exists i :: 0 <= i < |manifest| && EntryFails(buf, manifest[i])
  {
    var layers: seq<(View, View)> := [];
    for i := 0 to |manifest|
      invariant |layers| == i
      invariant forall j :: 0 <= j < i ==> !EntryFails(buf, manifest[j])
      invariant forall j :: 0 <= j < i ==>
        && ViewAt(buf, manifest[j].kOffset, manifest[j].kSize, manifest[j].shape, manifest[j].dtype) == Ok(layers[j].0)
        && ViewAt(buf, manifest[j].vOffset, manifest[j].vSize, manifest[j].shape, manifest[j].dtype) == Ok(layers[j].1)
    {
      var e := manifest[i];
      var k := ViewAt(buf, e.kOffset, e.kSize, e.shape, e.dtype);
      if k.Err? {
        assert EntryFails(buf, manifest[i]);
        return Err(k.error);
      }
      var v := ViewAt(buf, e.vOffset, e.vSize, e.shape, e.dtype);
      if v.Err? {
        assert EntryFails(buf, manifest[i]);
        return Err(v.error);
      }
      layers := layers + [(k.value, v.value)];
    }
    r := Ok(layers);
  }

  predicate EntryFails(buf: seq<Byte>, e: Entry) {
    || ViewAt(buf, e.kOffset, e.kSize, e.shape, e.dtype).Err?
    || ViewAt(buf, e.vOffset, e.vSize, e.shape, e.dtype).Err?
  }

  /** A view shows tensor t: same shape and dtype, and every index reads t's element. */
  ghost predicate Shows(r: Result<View>, t: Tensor)
    requires WellFormed(t)
  {
    && r.Ok? && r.value.shape == t.shape && r.value.dtype == t.dtype
    && forall i: Index :: InShape(i, t.shape) ==>
      && r.value.Position(i) < |r.value.typed|
      && RowMajor(i, t.shape) < |t.elems|
      && r.value.typed[r.value.Position(i)] == t.elems[RowMajor(i, t.shape)]
  }

  lemma {:induction false} StridesAreRowMajor(i: Index, s: Shape)
    ensures var st := Strides(s);
      i.b * st.0 + i.h * st.1 + i.s * st.2 + i.d * st.3 == RowMajor(i, s)
  {
    var a, h, n, d := i.b, s.heads, s.seqLen, s.headDim;
    assert (a * h + i.h) * n == a * h * n + i.h * n;
    assert (a * h * n + i.h * n + i.s) * d == a * h * n * d + i.h * n * d + i.s * d;
    assert a * (h * n * d) == a * h * n * d;
    assert i.h * (n * d) == i.h * n * d;
  }

  /** A tensor's bytes lying at `offset` are shown by the view at that offset, if and only if
      the offset is a multiple of the element size. */
  lemma {:induction false} ViewShows(buf: seq<Byte>, offset: nat, t: Tensor)
    requires WellFormed(t)
    requires offset + |TensorBytes(t)| <= |buf|
    requires buf[offset..offset + |TensorBytes(t)|] == TensorBytes(t)
    ensures Shows(ViewAt(buf, offset, |t.elems| * t.dtype.size, t.shape, t.dtype), t) <==> offset % t.dtype.size == 0
  {
    var size := t.dtype.size;
    FlatLength(t.elems, size);
    MultipleDivides(|t.elems|, size);
    assert SliceStart(buf, offset) == offset && SliceLength(buf, offset, |t.elems| * size) == |t.elems| * size;
    if offset % size == 0 {
      var typed := Typed(buf[offset..], size);
      var r := ViewAt(buf, offset, |t.elems| * size, t.shape, t.dtype);
      assert r == Ok(View(typed, t.shape, t.dtype, Strides(t.shape)));
      forall i: Index | InShape(i, t.shape)
        ensures r.value.Position(i) < |typed| && RowMajor(i, t.shape) < |t.elems|
        ensures typed[r.value.Position(i)] == t.elems[RowMajor(i, t.shape)]
      {
        StridesAreRowMajor(i, t.shape);
        RowMajorInBounds(i, t.shape);
        TypedElement(buf, offset, t, RowMajor(i, t.shape));
      }
    }
  }

  lemma {:induction false} TypedElement(buf: seq<Byte>, offset: nat, t: Tensor, j: nat)
    requires WellFormed(t) && j < |t.elems|
    requires offset + |TensorBytes(t)| <= |buf|
    requires buf[offset..offset + |TensorBytes(t)|] == TensorBytes(t)
    ensures j < |Typed(buf[offset..], t.dtype.size)| && Typed(buf[offset..], t.dtype.size)[j] == t.elems[j]
  {
    var size := t.dtype.size;
    var lo := j * size;
    FlatElement(t.elems, size, j);
    RestSlice(buf, offset, TensorBytes(t), lo, lo + size);
    QuotientAbove(|buf[offset..]|, size, j);
  }

  lemma {:induction false} RestSlice(buf: seq<Byte>, offset: nat, part: seq<Byte>, lo: nat, hi: nat)
    requires offset + |part| <= |buf| && buf[offset..offset + |part|] == part && lo <= hi <= |part|
    ensures buf[offset..][lo..hi] == part[lo..hi]
  {
    forall k | 0 <= k < |part| ensures buf[offset..][k] == part[k] {
      assert buf[offset..offset + |part|][k] == buf[offset + k];
    }
  }

  lemma {:induction false} QuotientAbove(n: nat, size: nat, j: nat)
    requires size > 0 && j * size + size <= n
    ensures j < n / size
  {
    Arithmetic.Division(n, size);
    Arithmetic.CancelProduct(j, n / size, size);
  }

  lemma {:induction false} MultipleDivides(n: nat, size: nat)
    requires size > 0
    ensures n * size % size == 0 && n * size / size == n
  {
    var x := n * size;
    Arithmetic.Division(x, size);
    NestInjective(x / size, x % size, n, 0, size);
  }

  /** Where the bytes of layer i lie in any buffer that starts with the packed bytes. */
  lemma {:induction false} LayerBytes(layers: seq<Layer>, buf: seq<Byte>, i: nat)
    requires WellFormedLayers(layers) && Pack(layers) <= buf && i < |layers|
    ensures var e := ManifestOf(layers)[i]; var k, v := TensorBytes(layers[i].k), TensorBytes(layers[i].v);
      && e.kOffset + |k| == e.vOffset && e.vOffset + |v| <= |buf|
      && buf[e.kOffset..e.vOffset] == k && buf[e.vOffset..e.vOffset + |v|] == v
  {
    ManifestAt(layers, i);
    PackStep(layers, i);
    PackPrefix(layers, i + 1);
    PrefixOfPrefix(Pack(layers[..i + 1]), Pack(layers), buf);
    MiddleSlices(Pack(layers[..i]), TensorBytes(layers[i].k), TensorBytes(layers[i].v), buf);
  }

  lemma {:induction false} PrefixOfPrefix(a: seq<Byte>, b: seq<Byte>, c: seq<Byte>)
    requires a <= b && b <= c
    ensures a <= c
  {
    assert a == c[..|a|];
  }

  lemma {:induction false} MiddleSlices(a: seq<Byte>, k: seq<Byte>, v: seq<Byte>, buf: seq<Byte>)
    requires a + k + v <= buf
    ensures buf[|a|..|a| + |k|] == k && buf[|a| + |k|..|a| + |k| + |v|] == v
  {
    var whole := a + k + v;
    assert whole == buf[..|whole|];
    assert buf[|a|..|a| + |k|] == whole[|a|..|a| + |k|];
    assert buf[|a| + |k|..|a| + |k| + |v|] == whole[|a| + |k|..];
  }

  /** From every buffer that starts with the packed bytes, the view of a layer's K shows K
      exactly when K lies at a multiple of its element size; V's view shows V exactly when V does
      too and shares K's shape and dtype, which are all the manifest records. */
  lemma {:induction false} ReconstructionRecovers(layers: seq<Layer>, buf: seq<Byte>, i: nat)
    requires WellFormedLayers(layers) && Pack(layers) <= buf && i < |layers|
    ensures var e := ManifestOf(layers)[i];
      Shows(ViewAt(buf, e.kOffset, e.kSize, e.shape, e.dtype), layers[i].k) <==> e.kOffset % layers[i].k.dtype.size == 0
    ensures var e := ManifestOf(layers)[i];
      Shows(ViewAt(buf, e.vOffset, e.vSize, e.shape, e.dtype), layers[i].v) <==>
        (e.vOffset % layers[i].k.dtype.size == 0
         && layers[i].k.shape == layers[i].v.shape && layers[i].k.dtype == layers[i].v.dtype)
  {
    KRecovers(layers, buf, i);
    VRecovers(layers, buf, i);
  }

  lemma {:induction false} KRecovers(layers: seq<Layer>, buf: seq<Byte>, i: nat)
    requires WellFormedLayers(layers) && Pack(layers) <= buf && i < |layers|
    ensures var e := ManifestOf(layers)[i];
      Shows(ViewAt(buf, e.kOffset, e.kSize, e.shape, e.dtype), layers[i].k) <==> e.kOffset % layers[i].k.dtype.size == 0
  {
    ManifestAt(layers, i);
    LayerBytes(layers, buf, i);
    ViewShows(buf, ManifestOf(layers)[i].kOffset, layers[i].k);
  }

  lemma {:induction false} VRecovers(layers: seq<Layer>, buf: seq<Byte>, i: nat)
    requires WellFormedLayers(layers) && Pack(layers) <= buf && i < |layers|
    ensures var e := ManifestOf(layers)[i];
      Shows(ViewAt(buf, e.vOffset, e.vSize, e.shape, e.dtype), layers[i].v) <==>
        (e.vOffset % layers[i].k.dtype.size == 0
         && layers[i].k.shape == layers[i].v.shape && layers[i].k.dtype == layers[i].v.dtype)
  {
    var e := ManifestOf(layers)[i];
    ManifestAt(layers, i);
    var k, v := layers[i].k, layers[i].v;
    if k.shape == v.shape && k.dtype == v.dtype {
      LayerBytes(layers, buf, i);
      ViewShows(buf, e.vOffset, v);
    } else {
      ViewKeepsShape(buf, e.vOffset, e.vSize, e.shape, e.dtype);
    }
  }

  lemma {:induction false} ViewKeepsShape(buf: seq<Byte>, offset: nat, bytes: nat, shape: Shape, dtype: Dtype)
    ensures var r := ViewAt(buf, offset, bytes, shape, dtype);
      r.Ok? ==> r.value.shape == shape && r.value.dtype == dtype
  {
  }

  // ------------------------------------------------------- when recovery is whole

  /** Both tensors of every layer lie at a multiple of their layer's element size. */
  predicate Aligned(layers: seq<Layer>)
    requires WellFormedLayers(layers)
  {
    forall i :: 0 <= i < |layers| ==> AlignedEntry(ManifestOf(layers)[i], layers[i].k.dtype.size)
  }

  predicate AlignedEntry(e: Entry, size: nat)
    requires size > 0
  {
    e.kOffset % size == 0 && e.vOffset % size == 0
  }

  /** Every K and V element of every layer is shown. */
  ghost predicate ShowsAll(buf: seq<Byte>, layers: seq<Layer>)
    requires WellFormedLayers(layers)
  {
    forall i :: 0 <= i < |layers| ==> ShowsLayer(buf, ManifestOf(layers)[i], layers[i])
  }

  ghost predicate ShowsLayer(buf: seq<Byte>, e: Entry, l: Layer)
    requires WellFormed(l.k) && WellFormed(l.v)
  {
    && Shows(ViewAt(buf, e.kOffset, e.kSize, e.shape, e.dtype), l.k)
    && Shows(ViewAt(buf, e.vOffset, e.vSize, e.shape, e.dtype), l.v)
  }

  /** The round trip gives back everything exactly for uniform, aligned layers. */
  lemma {:induction false} RecoversAllIff(layers: seq<Layer>, buf: seq<Byte>)
    requires WellFormedLayers(layers) && Pack(layers) <= buf
    ensures ShowsAll(buf, layers) <==> Uniform(layers) && Aligned(layers)
  {
    forall i | 0 <= i < |layers|
      ensures ShowsLayer(buf, ManifestOf(layers)[i], layers[i]) <==>
        AlignedEntry(ManifestOf(layers)[i], layers[i].k.dtype.size)
        && layers[i].k.shape == layers[i].v.shape && layers[i].k.dtype == layers[i].v.dtype
    {
      ReconstructionRecovers(layers, buf, i);
      ManifestAt(layers, i);
    }
  }

  predicate OneDtype(layers: seq<Layer>, d: Dtype) {
    forall i :: 0 <= i < |layers| ==> layers[i].k.dtype == d && layers[i].v.dtype == d
  }

  /** One dtype throughout, as models have it, is enough for alignment. */
  lemma {:induction false} OneDtypeAligns(layers: seq<Layer>, d: Dtype)
    requires WellFormedLayers(layers) && OneDtype(layers, d)
    ensures Aligned(layers)
  {
    forall i | 0 <= i < |layers| ensures AlignedEntry(ManifestOf(layers)[i], layers[i].k.dtype.size) {
      OneDtypeEntry(layers, d, i);
    }
  }

  lemma {:induction false} OneDtypeEntry(layers: seq<Layer>, d: Dtype, i: nat)
    requires WellFormedLayers(layers) && OneDtype(layers, d) && i < |layers|
    ensures AlignedEntry(ManifestOf(layers)[i], d.size)
  {
    ManifestAt(layers, i);
    PackedElements(layers[..i], d);
    var n, k := ElementsOf(layers[..i]), |layers[i].k.elems|;
    MultipleDivides(n, d.size);
    MultipleDivides(n + k, d.size);
    Arithmetic.SumOfProducts(n, k, 0, d.size);
  }

  function ElementsOf(layers: seq<Layer>): nat {
    if layers == [] then 0
    else ElementsOf(layers[..|layers| - 1]) + |layers[|layers| - 1].k.elems| + |layers[|layers| - 1].v.elems|
  }

  lemma {:induction false} PackedElements(layers: seq<Layer>, d: Dtype)
    requires WellFormedLayers(layers) && OneDtype(layers, d)
    ensures |Pack(layers)| == ElementsOf(layers) * d.size
  {
    if layers != [] {
      var l := layers[|layers| - 1];
      PackedElements(layers[..|layers| - 1], d);
      FlatLength(l.k.elems, d.size);
      FlatLength(l.v.elems, d.size);
      var n := ElementsOf(layers[..|layers| - 1]);
      assert |Pack(layers)| == n * d.size + |l.k.elems| * d.size + |l.v.elems| * d.size;
      Arithmetic.SumOfProducts(n, |l.k.elems|, |l.v.elems|, d.size);
    }
  }

  /** Uniform layers of two dtypes that are not aligned: one int8 element in each of K and V,
      then one float32 element in each.  The second layer's K starts at byte 2. */
  lemma {:induction false} TwoDtypesMisalign(small: Tensor, large: Tensor)
    requires WellFormed(small) && small.dtype.size == 1 && |small.elems| == 1
    requires WellFormed(large) && large.dtype.size == 4 && |large.elems| == 1
    ensures var layers := [Layer(small, small), Layer(large, large)];
      && WellFormedLayers(layers) && Uniform(layers)
      && !Aligned(layers) && !ShowsAll(Pack(layers), layers)
  {
    var layers := [Layer(small, small), Layer(large, large)];
    FlatLength(small.elems, 1);
    assert layers[..1] == [layers[0]];
    assert layers[..1][..0] == [];
    ManifestAt(layers, 1);
    PackStep(layers, 0);
    assert layers[..0] == [];
    assert |Pack(layers[..1])| == 2;
    assert !AlignedEntry(ManifestOf(layers)[1], 4);
    RecoversAllIff(layers, Pack(layers));
  }

  // ------------------------------------------------- when reconstruction succeeds

  /** Decode can rebuild a cache from these bytes: they are not empty (torch.frombuffer raises)
      and no entry fails. */
  predicate Rebuilds(buf: seq<Byte>, manifest: seq<Entry>) {
    |buf| > 0 && forall i :: 0 <= i < |manifest| ==> !EntryFails(buf, manifest[i])
  }

  /** Sizes alone decide it: per layer both offsets are multiples of K's element size, V's bytes
      divide into elements of K's dtype, and K's shape fits between V's offset and the end. */
  predicate Fits(e: Entry, total: nat)
    requires e.dtype.size > 0
  {
    && e.kOffset % e.dtype.size == 0 && e.vOffset % e.dtype.size == 0
    && e.vSize % e.dtype.size == 0
    && e.vOffset + NumElements(e.shape) * e.dtype.size <= total
  }

  lemma {:induction false} RebuildsIff(layers: seq<Layer>)
    requires WellFormedLayers(layers)
    ensures Rebuilds(Pack(layers), ManifestOf(layers)) <==>
      |Pack(layers)| > 0 && forall i :: 0 <= i < |layers| ==>
        ManifestOf(layers)[i].dtype.size > 0 && Fits(ManifestOf(layers)[i], |Pack(layers)|)
  {
    forall i | 0 <= i < |layers|
      ensures ManifestOf(layers)[i].dtype.size > 0
      ensures EntryFails(Pack(layers), ManifestOf(layers)[i]) <==> !Fits(ManifestOf(layers)[i], |Pack(layers)|)
    {
      EntryFits(layers, i);
    }
  }

  lemma {:induction false} EntryFits(layers: seq<Layer>, i: nat)
    requires WellFormedLayers(layers) && i < |layers|
    ensures ManifestOf(layers)[i].dtype.size > 0
    ensures EntryFails(Pack(layers), ManifestOf(layers)[i]) <==> !Fits(ManifestOf(layers)[i], |Pack(layers)|)
  {
    ManifestAt(layers, i);
    LayerBytes(layers, Pack(layers), i);
    FlatLength(layers[i].k.elems, layers[i].k.dtype.size);
    FlatLength(layers[i].v.elems, layers[i].v.dtype.size);
    InsideFits(Pack(layers), ManifestOf(layers)[i]);
  }

  /** An entry whose regions follow one another inside the buffer. */
  lemma {:induction false} InsideFits(buf: seq<Byte>, e: Entry)
    requires e.dtype.size > 0 && e.kSize == NumElements(e.shape) * e.dtype.size
    requires e.kOffset + e.kSize == e.vOffset && e.vOffset + e.vSize <= |buf|
    ensures EntryFails(buf, e) <==> !Fits(e, |buf|)
  {
    MultipleDivides(NumElements(e.shape), e.dtype.size);
  }

  /** A landing buffer that ends before a layer's V does raises. */
  lemma {:induction false} TruncationRaises(layers: seq<Layer>, buf: seq<Byte>, i: nat)
    requires WellFormedLayers(layers) && Uniform(layers) && i < |layers|
    requires var e := ManifestOf(layers)[i]; e.vSize > 0 && e.vOffset + e.vSize > |buf|
    ensures EntryFails(buf, ManifestOf(layers)[i])
  {
    ManifestAt(layers, i);
  }

  /** Uniform, aligned, non-empty layers rebuild. */
  lemma {:induction false} AlignedRebuilds(layers: seq<Layer>)
    requires WellFormedLayers(layers) && Uniform(layers) && Aligned(layers) && |Pack(layers)| > 0
    ensures Rebuilds(Pack(layers), ManifestOf(layers))
  {
    RecoversAllIff(layers, Pack(layers));
    forall i | 0 <= i < |layers| ensures !EntryFails(Pack(layers), ManifestOf(layers)[i]) {
      assert ShowsLayer(Pack(layers), ManifestOf(layers)[i], layers[i]);
    }
  }
}
