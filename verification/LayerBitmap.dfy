/** The layer bitmap: one 64-bit word per layer, one bit per chunk
    (examples/kvcache/kvcache_common.h).  Words are numbers below 2^64 and the bitwise
    operators work on their binary digits. */
module LayerBitmap {
  import opened Arithmetic

  const MAX_LAYERS: nat := 1024

  type Word = w: nat | w < 0x1_0000_0000_0000_0000

  function BitAnd(a: nat, b: nat): (r: nat)
    ensures r <= a && r <= b
  {
    if a == 0 || b == 0 then 0
    else 2 * BitAnd(a / 2, b / 2) + if a % 2 == 1 && b % 2 == 1 then 1 else 0
  }

  function BitOr(a: nat, b: nat): nat
    decreases a + b
  {
    if a == 0 then b else if b == 0 then a
    else 2 * BitOr(a / 2, b / 2) + if a % 2 == 1 || b % 2 == 1 then 1 else 0
  }

  /** Binary digit k. */
  predicate Has(w: nat, k: nat) {
    if k == 0 then w % 2 == 1 else Has(w / 2, k - 1)
  }

  lemma {:induction false} ZeroHasNone(k: nat)
    ensures !Has(0, k)
  {
    if k > 0 {
      ZeroHasNone(k - 1);
    }
  }

  lemma {:induction false} OrHas(a: nat, b: nat, k: nat)
    ensures Has(BitOr(a, b), k) <==> Has(a, k) || Has(b, k)
    decreases k
  {
    if a == 0 || b == 0 {
      ZeroHasNone(k);
    } else if k > 0 {
      OrHas(a / 2, b / 2, k - 1);
      assert BitOr(a, b) / 2 == BitOr(a / 2, b / 2);
    }
  }

  lemma {:induction false} PowerHas(j: nat, k: nat)
    ensures Has(Pow2(j), k) <==> j == k
  {
    if j == 0 || k == 0 {
      if j == 0 && k > 0 {
        ZeroHasNone(k - 1);
      }
    } else {
      PowerHas(j - 1, k - 1);
    }
  }

  /** Setting a bit sets that bit and no other, and stays within the word. */
  lemma {:induction false} SetBit(w: Word, j: nat, k: nat)
    requires j < 64
    ensures Has(BitOr(w, Pow2(j)), k) <==> Has(w, k) || j == k
    ensures BitOr(w, Pow2(j)) < 0x1_0000_0000_0000_0000
  {
    OrHas(w, Pow2(j), k);
    PowerHas(j, k);
    WordIsPower();
    Pow2Grows(j + 1, 64);
    OrBelow(w, Pow2(j), 64);
  }

  lemma {:induction false} WordIsPower()
    ensures Pow2(64) == 0x1_0000_0000_0000_0000
  {
    Pow2Sixteen(0);
    Pow2Sixteen(16);
    Pow2Sixteen(32);
    Pow2Sixteen(48);
  }

  lemma {:induction false} OrBelow(a: nat, b: nat, n: nat)
    requires a < Pow2(n) && b < Pow2(n)
    ensures BitOr(a, b) < Pow2(n)
  {
    if n > 0 && a > 0 && b > 0 {
      OrBelow(a / 2, b / 2, n - 1);
    }
  }

  ghost predicate Within(m: nat, w: nat) {
    forall k: nat :: Has(m, k) ==> Has(w, k)
  }

  /** w & m == m says that every digit of m is one of w. */
  lemma {:induction false} AndMeansWithin(w: nat, m: nat)
    ensures BitAnd(w, m) == m <==> Within(m, w)
    decreases m
  {
    if m == 0 {
      forall k: nat ensures !Has(m, k) {
        ZeroHasNone(k);
      }
    } else if w == 0 {
      var k := DigitOf(m);
      ZeroHasNone(k);
      assert Has(m, k) && !Has(w, k);
    } else {
      AndMeansWithin(w / 2, m / 2);
      if Within(m, w) {
        WithinHalves(m, w);
      }
      if (m % 2 == 1 ==> w % 2 == 1) && Within(m / 2, w / 2) {
        HalvesWithin(m, w);
      }
    }
  }

  function DigitOf(m: nat): (k: nat)
    requires m > 0
    ensures Has(m, k)
  {
    if m % 2 == 1 then 0 else DigitOf(m / 2) + 1
  }

  lemma {:induction false} WithinHalves(m: nat, w: nat)
    requires Within(m, w)
    ensures (m % 2 == 1 ==> w % 2 == 1) && Within(m / 2, w / 2)
  {
    assert Has(m, 0) ==> Has(w, 0);
    forall k: nat | Has(m / 2, k) ensures Has(w / 2, k) {
      assert Has(m, k + 1);
      assert Has(w, k + 1);
    }
  }

  lemma {:induction false} HalvesWithin(m: nat, w: nat)
    requires (m % 2 == 1 ==> w % 2 == 1) && Within(m / 2, w / 2)
    ensures Within(m, w)
  {
    forall k: nat | Has(m, k) ensures Has(w, k) {
      if k > 0 {
        assert Has(m / 2, k - 1);
        assert Has(w / 2, k - 1);
      }
    }
  }

  lemma {:induction false} MaskHas(n: nat, k: nat)
    ensures Has(Pow2(n) - 1, k) <==> k < n
  {
    if n == 0 {
      ZeroHasNone(k);
    } else if k > 0 {
      MaskHas(n - 1, k - 1);
      assert (Pow2(n) - 1) / 2 == Pow2(n - 1) - 1;
    }
  }

  ghost predicate AllSet(w: nat, n: nat) {
    forall k :: 0 <= k < n ==> Has(w, k)
  }

  /** The word test of bitmap_layer_complete says exactly that every chunk's bit is set. */
  lemma {:induction false} MaskMeansAll(w: nat, n: nat)
    ensures BitAnd(w, Pow2(n) - 1) == Pow2(n) - 1 <==> AllSet(w, n)
  {
    var m := Pow2(n) - 1;
    AndMeansWithin(w, m);
    forall k: nat ensures Has(m, k) <==> k < n {
      MaskHas(n, k);
    }
    if Within(m, w) {
      forall k | 0 <= k < n ensures Has(w, k) {
        assert Has(m, k);
      }
    }
  }

  // ------------------------------------------------------------------ the bitmap

  /** struct layer_bitmap.  With 64 chunks the shift 1ULL << 64 is undefined in C; the sizes
      here are those for which it is not. */
  class Bitmap {
    const bits: array<Word>
    const layers: nat
    const chunks: nat

    ghost predicate Valid() {
      bits.Length == MAX_LAYERS && layers <= MAX_LAYERS && 1 <= chunks <= 63
    }

    /** The chunk of the layer has been received. */
    predicate Got(layer: nat, chunk: nat)
      requires Valid() && layer < MAX_LAYERS
      reads bits
    {
      Has(bits[layer], chunk)
    }

    ghost predicate Complete()
      requires Valid()
      reads bits
    {
      forall l :: 0 <= l < layers ==> AllSet(bits[l], chunks)
    }

    constructor (layers: nat, chunks: nat)
      requires layers <= MAX_LAYERS && 1 <= chunks <= 63
      ensures Valid() && this.layers == layers && this.chunks == chunks && fresh(bits)
      ensures forall l, c :: 0 <= l < MAX_LAYERS && 0 <= c < 64 ==> !Got(l, c)
    {
      bits := new Word[MAX_LAYERS](_ => 0);
      this.layers, this.chunks := layers, chunks;
      new;
      forall l, c | 0 <= l < MAX_LAYERS && 0 <= c < 64 ensures !Got(l, c) {
        ZeroHasNone(c);
      }
    }

    /** bitmap_set: out of range positions are ignored. */
    method Set(layer: nat, chunk: nat)
      requires Valid()
      modifies bits
      ensures forall l, c :: 0 <= l < 1024 && 0 <= c < 64 ==>
        (Got(l, c) <==> old(Got(l, c)) || (l == layer && c == chunk))
    {
      if layer < MAX_LAYERS && chunk < 64 {
        ghost var word := bits[layer];
        SetBit(word, chunk, 0);
        bits[layer] := BitOr(bits[layer], Pow2(chunk));
        forall c | 0 <= c < 64 ensures Has(bits[layer], c) <==> Has(word, c) || c == chunk {
          SetBit(word, chunk, c);
        }
      }
    }

    /** bitmap_layer_complete. */
    method LayerComplete(layer: nat) returns (complete: bool)
      requires Valid() && layer < MAX_LAYERS
      ensures complete <==> AllSet(bits[layer], chunks)
    {
      var expected := Pow2(chunks) - 1;
      MaskMeansAll(bits[layer], chunks);
      complete := BitAnd(bits[layer], expected) == expected;
    }

    /** bitmap_all_complete. */
    method AllComplete() returns (complete: bool)
      requires Valid()
      ensures complete <==> Complete()
    {
      complete := true;
      for i := 0 to layers
        invariant complete && forall l :: 0 <= l < i ==> AllSet(bits[l], chunks)
      {
        var layer := LayerComplete(i);
        if !layer {
          return false;
        }
      }
    }
  }
}
