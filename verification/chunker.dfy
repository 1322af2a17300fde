/** The chunker of `process_text_and_create_excel`: the text is cut into
    consecutive, non-overlapping slices of at most `ChunkSize` characters. */
module Chunker {
  import opened Common

  const ChunkSize: nat := 3000

  /** Python's `s[lo:hi]` for non-negative bounds: both bounds are clamped to
      the length and a reversed range is empty. */
  function Slice(s: string, lo: nat, hi: nat): (r: string)
    ensures lo <= hi && hi <= |s| ==> r == s[lo..hi]
    ensures lo < |s| && |s| <= hi ==> r == s[lo..]
    ensures |s| <= lo || hi <= lo ==> r == []
  {
    var a := Min(lo, |s|);
    var b := Min(hi, |s|);
    if a <= b then s[a..b] else []
  }

  /** Number of chunks: the length divided by the chunk size, rounded up. */
  function CeilDiv(n: nat, size: nat): nat
    requires size > 0
  {
    (n + size - 1) / size
  }

  /** Integer division is pinned down by the bracketing multiples. */
  lemma DivUnique(m: nat, d: nat, q: nat)
    requires d > 0 && q * d <= m < q * d + d
    ensures m / d == q
  {
    var q' := m / d;
    var r' := m % d;
    assert m == q' * d + r' && 0 <= r' < d;
    if q' < q {
      MulMonotone(q' + 1, q, d);
    } else if q' > q {
      MulMonotone(q + 1, q', d);
    }
  }

  lemma {:induction false} MulMonotone(a: nat, b: nat, d: nat)
    requires a <= b
    ensures a * d <= b * d
    decreases b - a
  {
    if a < b {
      MulMonotone(a + 1, b, d);
      assert (a + 1) * d == a * d + d;
    }
  }

  lemma CeilDivOne(n: nat, size: nat)
    requires size > 0 && 0 < n <= size
    ensures CeilDiv(n, size) == 1
  {
    DivUnique(n + size - 1, size, 1);
  }

  lemma CeilDivStep(n: nat, size: nat)
    requires size > 0 && n > size
    ensures CeilDiv(n, size) == CeilDiv(n - size, size) + 1
  {
    var m := n - 1;
    var q := m / size;
    var r := m % size;
    assert m == q * size + r && 0 <= r < size;
    assert m - size + size == (q - 1) * size + r + size;
    DivUnique(n - size + size - 1, size, q);
    DivUnique(n + size - 1, size, q + 1);
  }

  /** Reference definition of the chunk sequence, by peeling one chunk off the
      front; the lemmas below state what the chunker promises about it. */
  function Chunks(text: string, size: nat): seq<string>
    requires size > 0
    decreases |text|
  {
    if |text| == 0 then []
    else if |text| <= size then [text]
    else [text[..size]] + Chunks(text[size..], size)
  }

  /** Every chunk is non-empty and at most `size` long; all but the last are
      exactly `size` long. */
  lemma {:induction false} ChunkLengths(text: string, size: nat)
    requires size > 0
    ensures forall k :: 0 <= k < |Chunks(text, size)| ==> 0 < |Chunks(text, size)[k]| <= size
    ensures forall k :: 0 <= k < |Chunks(text, size)| - 1 ==> |Chunks(text, size)[k]| == size
    decreases |text|
  {
    if |text| > size {
      var cs := Chunks(text, size);
      var rest := Chunks(text[size..], size);
      ChunkLengths(text[size..], size);
      assert cs == [text[..size]] + rest;
      forall k | 0 <= k < |cs|
        ensures 0 < |cs[k]| <= size
        ensures k < |cs| - 1 ==> |cs[k]| == size
      {
        if k > 0 {
          assert cs[k] == rest[k - 1];
        }
      }
    }
  }

  /** There are ceil(len / size) chunks, so none for the empty text. */
  lemma {:induction false} ChunkCount(text: string, size: nat)
    requires size > 0
    ensures |Chunks(text, size)| == CeilDiv(|text|, size)
    ensures |Chunks(text, size)| == 0 <==> |text| == 0
    decreases |text|
  {
    if |text| == 0 {
    } else if |text| <= size {
      CeilDivOne(|text|, size);
    } else {
      CeilDivStep(|text|, size);
      ChunkCount(text[size..], size);
      assert |Chunks(text, size)| == 1 + |Chunks(text[size..], size)|;
      assert |text[size..]| == |text| - size;
    }
  }

  /** The chunks concatenate back to the whole text. */
  lemma {:induction false} ChunksConcat(text: string, size: nat)
    requires size > 0
    ensures Flatten(Chunks(text, size)) == text
    decreases |text|
  {
    var cs := Chunks(text, size);
    if |text| == 0 {
    } else if |text| <= size {
      assert cs == [text];
      assert Flatten(cs) == text + Flatten(cs[1..]);
    } else {
      ChunksConcat(text[size..], size);
      assert cs[1..] == Chunks(text[size..], size);
      assert Flatten(cs) == text[..size] + Flatten(cs[1..]);
      assert text == text[..size] + text[size..];
    }
  }

  /** Peeling the first chunk: it is the first `size` characters (or all of a
      shorter text), and the rest are the chunks of what follows. */
  lemma ChunksUnfold(text: string, size: nat)
    requires size > 0 && |text| > 0
    ensures Chunks(text, size) ==
            [Slice(text, 0, size)] + Chunks(text[Min(size, |text|)..], size)
  {
    if |text| <= size {
      assert text[|text|..] == [];
    }
  }

  /** One turn of the chunking loop at offset `i`: the slice taken there is the
      first chunk of the remaining text. */
  lemma ChunksStep(text: string, size: nat, i: nat)
    requires size > 0 && i < |text|
    ensures Chunks(text[i..], size) ==
            [Slice(text, i, i + size)] + Chunks(text[Min(i + size, |text|)..], size)
  {
    ChunksUnfold(text[i..], size);
    assert Slice(text[i..], 0, size) == Slice(text, i, i + size);
    assert text[i..][Min(size, |text| - i)..] == text[Min(i + size, |text|)..];
  }

  /** The chunking loop of `process_text_and_create_excel`: offsets `0, size, 2*size, ...`
      below the length, each chunk `text[i:i+size]`. */
  method SplitText(text: string, size: nat) returns (chunks: seq<string>)
    requires size > 0
    ensures chunks == Chunks(text, size)
  {
    chunks := [];
    var i: nat := 0;
    while i < |text|
      invariant Chunks(text, size) == chunks + Chunks(text[Min(i, |text|)..], size)
      decreases |text| - i
    {
      var chunk := Slice(text, i, i + size);
      var next := text[Min(i + size, |text|)..];
      ChunksStep(text, size, i);
      assert Min(i, |text|) == i;
      assert chunks + Chunks(text[i..], size) == (chunks + [chunk]) + Chunks(next, size);
      chunks := chunks + [chunk];
      i := i + size;
    }
    assert text[Min(i, |text|)..] == [];
  }

  /** Slicing a suffix is slicing the whole text at shifted offsets. */
  lemma SliceShift(text: string, d: nat, lo: nat, hi: nat)
    requires d <= |text|
    ensures Slice(text[d..], lo, hi) == Slice(text, lo + d, hi + d)
  {
  }

  lemma MulPred(k: nat, size: nat)
    requires k > 0
    ensures 0 <= (k - 1) * size
    ensures k * size == (k - 1) * size + size
  {
  }

  /** Chunk `k` is the slice starting at offset `k * size`. */
  lemma {:induction false} ChunkAt(text: string, size: nat, k: nat)
    requires size > 0 && k < |Chunks(text, size)|
    ensures Chunks(text, size)[k] == Slice(text, k * size, k * size + size)
    decreases k
  {
    ChunksUnfold(text, size);
    if k > 0 {
      var rest := text[Min(size, |text|)..];
      assert Chunks(text, size)[k] == Chunks(rest, size)[k - 1];
      MulPred(k, size);
      ChunkAt(rest, size, k - 1);
      assert |text| > size;
      SliceShift(text, size, (k - 1) * size, (k - 1) * size + size);
    }
  }

  /** A 7000-character text yields chunks of 3000, 3000 and 1000 characters. */
  lemma SevenThousandCharacters(text: string)
    requires |text| == 7000
    ensures Chunks(text, ChunkSize) == [text[..3000], text[3000..6000], text[6000..]]
  {
    var t1 := text[3000..];
    var t2 := t1[3000..];
    assert t1[..3000] == text[3000..6000];
    assert t2 == text[6000..];
    assert Chunks(t2, ChunkSize) == [t2];
    assert Chunks(t1, ChunkSize) == [t1[..3000]] + [t2];
  }
}
