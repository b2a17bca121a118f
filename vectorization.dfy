/**
 * Ingestion: turning the split strings of a document and their embeddings into
 * Astra records, partitioning the records into insert batches, and the outcome of
 * inserting every batch.
 */
module Vectorization {
  import opened Wrappers

  /** An embedding vector; the model never inspects its components. */
  type Vector = seq<real>

  /** One stored chunk: the document it belongs to, its text and its embedding (`$vector`). */
  datatype AstraDoc = AstraDoc(fileId: string, text: string, vector: Vector)

  /** Number of records sent in one `insertMany` call. */
  const BatchSize: nat := 20

  /** The status `vectorizeFile` returns once every batch is stored. */
  const DocumentStored: string := "DOCUMENT_STORED"

  /** Why an ingestion failed: some `insertMany` promise rejected. */
  datatype IngestError = InsertRejected

  /** The texts of a list of records, in order. */
  function Texts(docs: seq<AstraDoc>): (texts: seq<string>)
    ensures |texts| == |docs|
  {
    seq(|docs|, i requires 0 <= i < |docs| => docs[i].text)
  }

  /** The vectors of a list of records, in order. */
  function Vectors(docs: seq<AstraDoc>): (vectors: seq<Vector>)
    ensures |vectors| == |docs|
  {
    seq(|docs|, i requires 0 <= i < |docs| => docs[i].vector)
  }

  /**
   * Record assembly: split string i and embedding i become record i, all under
   * `fileId`. Taking the texts and the vectors back out gives the two inputs.
   */
  function AstraDocs(fileId: string, splitStrings: seq<string>, embeddings: seq<Vector>): (docs: seq<AstraDoc>)
    requires |embeddings| == |splitStrings|
    ensures |docs| == |splitStrings|
    ensures Texts(docs) == splitStrings && Vectors(docs) == embeddings
    ensures forall d :: d in docs ==> d.fileId == fileId
  {
    seq(|splitStrings|, i requires 0 <= i < |splitStrings| => AstraDoc(fileId, splitStrings[i], embeddings[i]))
  }

  /** Concatenation of a list of batches. */
  function Flatten<T>(batches: seq<seq<T>>): seq<T>
  {
    if batches == [] then [] else batches[0] + Flatten(batches[1..])
  }

  /**
   * The partition `chunkArray` computes: consecutive runs of `k` elements, the
   * last run holding what remains.
   */
  function Batches<T>(arr: seq<T>, k: nat): seq<seq<T>>
    requires k > 0
    decreases |arr|
  {
    if arr == [] then []
    else if |arr| <= k then [arr]
    else [arr[..k]] + Batches(arr[k..], k)
  }

  /** A positive multiple of `k` is at least `k`. */
  lemma {:induction false} MulAtLeast(d: int, k: int)
    requires d >= 1 && k > 0
    ensures d * k >= k
    decreases d
  {
    if d > 1 {
      MulAtLeast(d - 1, k);
      assert d * k == (d - 1) * k + k;
    }
  }

  /** Euclidean quotient and remainder are determined by `x == q * k + r` with `0 <= r < k`. */
  lemma DivMod(x: int, k: int, q: int, r: int)
    requires k > 0 && 0 <= r < k && x == q * k + r
    ensures x / k == q && x % k == r
  {
    var q', r' := x / k, x % k;
    var d := q - q';
    assert d * k == r' - r by {
      assert d * k == q * k - q' * k;
    }
    if d >= 1 {
      MulAtLeast(d, k);
    } else if d <= -1 {
      MulAtLeast(-d, k);
    }
  }

  /** Rounding up: `(n + k - 1) / k` is `n / k`, plus one when `k` does not divide `n`. */
  lemma CeilDiv(n: nat, k: nat)
    requires k > 0
    ensures (n + k - 1) / k == if n % k == 0 then n / k else n / k + 1
  {
    var q, r := n / k, n % k;
    assert n == q * k + r;
    if r == 0 {
      DivMod(n + k - 1, k, q, k - 1);
    } else {
      assert (q + 1) * k == q * k + k;
      DivMod(n + k - 1, k, q + 1, r - 1);
    }
  }

  /** Concatenating the batches gives back the input: nothing omitted, duplicated or reordered. */
  lemma {:induction false} FlattenBatches<T>(arr: seq<T>, k: nat)
    requires k > 0
    ensures Flatten(Batches(arr, k)) == arr
    decreases |arr|
  {
    if arr != [] && |arr| > k {
      FlattenBatches(arr[k..], k);
      assert ([arr[..k]] + Batches(arr[k..], k))[1..] == Batches(arr[k..], k);
      assert arr[..k] + arr[k..] == arr;
    }
  }

  /** Every batch is non-empty and holds at most `k` elements; all but the last hold exactly `k`. */
  lemma {:induction false} BatchSizes<T>(arr: seq<T>, k: nat)
    requires k > 0
    ensures forall j :: 0 <= j < |Batches(arr, k)| ==> 0 < |Batches(arr, k)[j]| <= k
    ensures forall j :: 0 <= j < |Batches(arr, k)| - 1 ==> |Batches(arr, k)[j]| == k
    decreases |arr|
  {
    if arr != [] && |arr| > k {
      BatchSizes(arr[k..], k);
      var r := Batches(arr, k);
      assert r[1..] == Batches(arr[k..], k);
      forall j | 0 < j < |r|
        ensures 0 < |r[j]| <= k && (j < |r| - 1 ==> |r[j]| == k)
      {
        assert r[j] == r[1..][j - 1];
      }
    }
  }

  /** There are ceil(|arr| / k) batches; in particular none for an empty input. */
  lemma {:induction false} BatchCount<T>(arr: seq<T>, k: nat)
    requires k > 0
    ensures |Batches(arr, k)| == (|arr| + k - 1) / k
    decreases |arr|
  {
    if arr == [] {
      DivMod(k - 1, k, 0, k - 1);
    } else if |arr| <= k {
      DivMod(|arr| + k - 1, k, 1, |arr| - 1);
    } else {
      BatchCount(arr[k..], k);
      var m := |arr| - k + k - 1;
      DivMod(m, k, m / k, m % k);
      DivMod(m + k, k, m / k + 1, m % k);
    }
  }

  /** Element i of the input sits in batch i / k at position i % k. */
  lemma {:induction false} BatchPosition<T>(arr: seq<T>, k: nat, i: nat)
    requires k > 0 && i < |arr|
    ensures i / k < |Batches(arr, k)|
    ensures i % k < |Batches(arr, k)[i / k]|
    ensures Batches(arr, k)[i / k][i % k] == arr[i]
    decreases |arr|
  {
    if i < k {
      DivMod(i, k, 0, i);
    } else {
      DivMod(i, k, (i - k) / k + 1, (i - k) % k);
      BatchPosition(arr[k..], k, i - k);
      assert Batches(arr, k)[1..] == Batches(arr[k..], k);
    }
  }

  /** Every element of every batch comes from the input. */
  lemma {:induction false} BatchMembers<T>(arr: seq<T>, k: nat)
    requires k > 0
    ensures forall b, x :: b in Batches(arr, k) && x in b ==> x in arr
    decreases |arr|
  {
    if arr != [] && |arr| > k {
      BatchMembers(arr[k..], k);
      assert forall b :: b in Batches(arr, k) ==> b == arr[..k] || b in Batches(arr[k..], k);
    }
  }

  /** Appending one element either opens a new batch (when the last is full) or extends the last one. */
  lemma {:induction false} BatchesSnoc<T>(s: seq<T>, x: T, k: nat)
    requires k > 0
    ensures |s| % k == 0 ==> Batches(s + [x], k) == Batches(s, k) + [[x]]
    ensures |s| % k != 0 ==>
      (|Batches(s, k)| > 0 &&
       Batches(s + [x], k) == Batches(s, k)[..|Batches(s, k)| - 1] + [Batches(s, k)[|Batches(s, k)| - 1] + [x]])
    decreases |s|
  {
    var t := s + [x];
    if s == [] {
      assert t == [x];
      DivMod(0, k, 0, 0);
    } else if |s| < k {
      DivMod(|s|, k, 0, |s|);
    } else if |s| == k {
      DivMod(|s|, k, 1, 0);
      assert t[..k] == s && t[k..] == [x];
    } else {
      DivMod(|s|, k, (|s| - k) / k + 1, (|s| - k) % k);
      assert t[..k] == s[..k] && t[k..] == s[k..] + [x];
      BatchesSnoc(s[k..], x, k);
    }
  }

  /**
   * One step of `chunkArray`'s reduce: the element at index `|s|` goes to chunk
   * `|s| / k`, which is either the next, not yet existing chunk or the last one.
   */
  lemma ChunkStep<T>(s: seq<T>, x: T, k: nat)
    requires k > 0
    ensures |s| / k <= |Batches(s, k)|
    ensures |s| / k < |Batches(s, k)| ==> |s| / k == |Batches(s, k)| - 1
    ensures Batches(s + [x], k) ==
      if |s| / k == |Batches(s, k)| then Batches(s, k) + [[x]]
      else Batches(s, k)[|s| / k := Batches(s, k)[|s| / k] + [x]]
  {
    var c := Batches(s, k);
    BatchCount(s, k);
    BatchesSnoc(s, x, k);
    CeilDiv(|s|, k);
    if |s| % k != 0 {
      assert c[|s| / k := c[|s| / k] + [x]] == c[..|c| - 1] + [c[|c| - 1] + [x]];
    }
  }

  /** Opening an empty chunk at the end and pushing onto it appends a one-element chunk. */
  lemma PushOntoNewChunk<T>(chunks: seq<seq<T>>, x: T)
    ensures (chunks + [[]])[|chunks| := (chunks + [[]])[|chunks|] + [x]] == chunks + [[x]]
  {
    var c := chunks + [[]];
    assert c[|chunks|] == [];
    var d := c[|chunks| := c[|chunks|] + [x]];
    assert d[|chunks|] == [x];
    assert forall j :: 0 <= j < |chunks| ==> d[j] == chunks[j];
  }

  /**
   * `chunkArray(arr, chunkSize)`: the `reduce` over `arr` that opens chunk
   * `floor(index / chunkSize)` when it does not exist yet and pushes the element
   * onto it.
   */
  method ChunkArray<T>(arr: seq<T>, chunkSize: nat) returns (chunks: seq<seq<T>>)
    requires chunkSize > 0
    ensures chunks == Batches(arr, chunkSize)
  {
    chunks := [];
    var index := 0;
    while index < |arr|
      invariant 0 <= index <= |arr|
      invariant chunks == Batches(arr[..index], chunkSize)
    {
      var chunkIndex := index / chunkSize;
      ghost var done, before := arr[..index], chunks;
      ChunkStep(done, arr[index], chunkSize);
      assert arr[..index + 1] == done + [arr[index]];
      if chunkIndex == |chunks| {
        chunks := chunks + [[]];
      }
      chunks := chunks[chunkIndex := chunks[chunkIndex] + [arr[index]]];
      if chunkIndex == |before| {
        PushOntoNewChunk(before, arr[index]);
      } else {
        assert chunks == before[chunkIndex := before[chunkIndex] + [arr[index]]];
      }
      index := index + 1;
    }
    assert arr[..index] == arr;
  }

  /**
   * `vectorizeFile` from the split strings and their embeddings on: assemble the
   * records, cut them into batches of 20, issue one insert per batch, and report
   * `"DOCUMENT_STORED"` only when every insert resolved. `insertResolves` is the
   * outcome of the store's `insertMany` for a batch.
   */
  method VectorizeFile(fileId: string, splitStrings: seq<string>, embeddings: seq<Vector>,
                       insertResolves: seq<AstraDoc> -> bool)
    returns (issued: seq<seq<AstraDoc>>, status: Result<string, IngestError>)
    requires |embeddings| == |splitStrings|
    ensures Flatten(issued) == AstraDocs(fileId, splitStrings, embeddings)
    ensures forall b :: b in issued ==> 0 < |b| <= BatchSize
    ensures forall b, d :: b in issued && d in b ==> d.fileId == fileId
    ensures status.Ok? <==> forall b :: b in issued ==> insertResolves(b)
    ensures status.Ok? ==> status.value == DocumentStored
  {
    var astraDocs := AstraDocs(fileId, splitStrings, embeddings);
    issued := ChunkArray(astraDocs, BatchSize);
    FlattenBatches(astraDocs, BatchSize);
    BatchSizes(astraDocs, BatchSize);
    BatchMembers(astraDocs, BatchSize);
    if forall b :: b in issued ==> insertResolves(b) {
      status := Ok(DocumentStored);
    } else {
      status := Err(InsertRejected);
    }
  }
}
