/**
 Model of chroma_utils.py: `build_chroma_collection`.

 The persistent store and a collection are objects whose state the function
 changes: the store gains one collection name, and the collection's stored
 records grow by one `add` per batch. Embedding, the distance computation and
 the on-disk layout are not modelled; a collection keeps the embedding model's
 name and its metadata map, and `Add` appends (id, document, metadata) triples.
 */
module ChromaUtils {

  /** The batch size passed to `batched`. */
  const BatchSize: nat := 166

  /** The default of the `distance_func_name` parameter. */
  const DefaultDistanceFuncName: string := "cosine"

  /** The collection metadata key that selects the distance function. */
  const SpaceKey: string := "hnsw:space"

  /** One stored record of a collection. */
  datatype Entry<M> = Entry(id: string, document: string, metadata: M)

  /** The records that three parallel lists describe, position by position. */
  function Entries<M>(ids: seq<string>, documents: seq<string>, metadatas: seq<M>): (es: seq<Entry<M>>)
    requires |ids| == |documents| == |metadatas|
    ensures |es| == |ids|
  {
    seq(|ids|, i requires 0 <= i < |ids| => Entry(ids[i], documents[i], metadatas[i]))
  }

  /** The records at the positions `idx` of three parallel lists, in the order of `idx`. */
  function EntriesAt<M>(ids: seq<string>, documents: seq<string>, metadatas: seq<M>, idx: seq<nat>): (es: seq<Entry<M>>)
    requires |ids| == |documents| == |metadatas|
    requires forall j :: 0 <= j < |idx| ==> idx[j] < |ids|
    ensures |es| == |idx|
  {
    seq(|idx|, j requires 0 <= j < |idx| => Entry(ids[idx[j]], documents[idx[j]], metadatas[idx[j]]))
  }

  // ---------------------------------------------------------------------------
  // The store and its collections
  // ---------------------------------------------------------------------------

  /** A named collection (`chromadb.Collection`). */
  class Collection<M> {
    const name: string
    const embeddingFuncName: string
    const metadata: map<string, string>
    /** The records stored so far, in the order they were added. */
    var contents: seq<Entry<M>>
    /** The records of each `add` call so far, one element per call. */
    ghost var submissions: seq<seq<Entry<M>>>

    constructor (name: string, embeddingFuncName: string, metadata: map<string, string>)
      ensures this.name == name && this.embeddingFuncName == embeddingFuncName
      ensures this.metadata == metadata
      ensures contents == [] && submissions == []
    {
      this.name := name;
      this.embeddingFuncName := embeddingFuncName;
      this.metadata := metadata;
      contents := [];
      submissions := [];
    }

    /** `collection.add(ids=..., documents=..., metadatas=...)`: stores the records in order. */
    method Add(ids: seq<string>, documents: seq<string>, metadatas: seq<M>)
      requires |ids| == |documents| == |metadatas|
      modifies this
      ensures contents == old(contents) + Entries(ids, documents, metadatas)
      ensures submissions == old(submissions) + [Entries(ids, documents, metadatas)]
    {
      contents := contents + Entries(ids, documents, metadatas);
      submissions := submissions + [Entries(ids, documents, metadatas)];
    }
  }

  /** What `create_collection` gives back: a new collection, or the failure for a taken name. */
  datatype CreateOutcome<M> = Created(collection: Collection<M>) | AlreadyExists

  /** The persistent store opened at the store path (`chromadb.PersistentClient`). */
  class Client {
    /** The names of the collections the store already holds. */
    var collectionNames: set<string>

    constructor (collectionNames: set<string>)
      ensures this.collectionNames == collectionNames
    {
      this.collectionNames := collectionNames;
    }

    /** `create_collection`: fails on a name that is taken, and otherwise registers
        the name and returns a new, empty collection. */
    method CreateCollection<M>(name: string, embeddingFuncName: string, metadata: map<string, string>)
      returns (r: CreateOutcome<M>)
      modifies this
      ensures name in old(collectionNames) ==> r == AlreadyExists && collectionNames == old(collectionNames)
      ensures name !in old(collectionNames) ==>
        && r.Created? && fresh(r.collection)
        && r.collection.name == name && r.collection.embeddingFuncName == embeddingFuncName
        && r.collection.metadata == metadata
        && r.collection.contents == [] && r.collection.submissions == []
        && collectionNames == old(collectionNames) + {name}
    {
      if name in collectionNames {
        r := AlreadyExists;
      } else {
        var c := new Collection<M>(name, embeddingFuncName, metadata);
        collectionNames := collectionNames + {name};
        r := Created(c);
      }
    }
  }

  // ---------------------------------------------------------------------------
  // Batches (`list(range(n))` and `more_itertools.batched`)
  // ---------------------------------------------------------------------------

  function Min(a: int, b: int): int { if a <= b then a else b }

  /** `list(range(lo, hi))`. */
  function Range(lo: nat, hi: nat): (r: seq<nat>)
    requires lo <= hi
    ensures |r| == hi - lo
    ensures forall i :: 0 <= i < |r| ==> r[i] == lo + i
  {
    seq(hi - lo, i requires 0 <= i < hi - lo => lo + i)
  }

  /** `batched(s, n)`: consecutive chunks of `n` elements, the last one possibly shorter. */
  function Batched<T>(s: seq<T>, n: nat): (batches: seq<seq<T>>)
    requires n > 0
    ensures forall j :: 0 <= j < |batches| ==> 0 < |batches[j]| <= n
    ensures forall j :: 0 <= j < |batches| - 1 ==> |batches[j]| == n
    decreases |s|
  {
    if |s| == 0 then []
    else if |s| <= n then [s]
    else [s[..n]] + Batched(s[n..], n)
  }

  function Flatten<T>(batches: seq<seq<T>>): seq<T> {
    if |batches| == 0 then [] else batches[0] + Flatten(batches[1..])
  }

  /** The chunks, put back together, are the input: nothing is dropped, repeated or reordered. */
  lemma {:induction false} BatchedFlatten<T>(s: seq<T>, n: nat)
    requires n > 0
    ensures Flatten(Batched(s, n)) == s
    decreases |s|
  {
    if |s| > n {
      BatchedFlatten(s[n..], n);
      var bs := Batched(s, n);
      assert bs[1..] == Batched(s[n..], n);
      assert s == s[..n] + s[n..];
    } else if |s| > 0 {
      assert Flatten([s]) == s + Flatten([]);
    }
  }

  /** Flattening one more batch appends that batch. */
  lemma {:induction false} FlattenAppend<T>(batches: seq<seq<T>>, b: seq<T>)
    ensures Flatten(batches + [b]) == Flatten(batches) + b
  {
    if |batches| > 0 {
      FlattenAppend(batches[1..], b);
      assert (batches + [b])[1..] == batches[1..] + [b];
    }
  }

  /** The number of batches of `n` records: the ceiling of n / 166. */
  function NumBatches(n: nat): nat {
    (n + BatchSize - 1) / BatchSize
  }

  /** One past the last position of batch k of n records. */
  function BatchEnd(k: nat, n: nat): int {
    Min(BatchSize * k + BatchSize, n)
  }

  lemma NumBatchesBound(n: nat, k: nat)
    ensures k < NumBatches(n) <==> BatchSize * k < n
  {
  }

  /** The batches of `range(lo, hi)` are the ranges [lo + 166k, min(lo + 166(k+1), hi)). */
  lemma {:induction false} BatchedRange(lo: nat, hi: nat)
    requires lo <= hi
    ensures |Batched(Range(lo, hi), BatchSize)| == NumBatches(hi - lo)
    ensures forall k :: 0 <= k < NumBatches(hi - lo) ==>
      lo + BatchSize * k <= Min(lo + BatchSize * k + BatchSize, hi)
      && Batched(Range(lo, hi), BatchSize)[k] == Range(lo + BatchSize * k, Min(lo + BatchSize * k + BatchSize, hi))
    decreases hi - lo
  {
    var s := Range(lo, hi);
    var bs := Batched(s, BatchSize);
    if hi - lo > BatchSize {
      BatchedRange(lo + BatchSize, hi);
      assert s[..BatchSize] == Range(lo, lo + BatchSize);
      assert s[BatchSize..] == Range(lo + BatchSize, hi);
      var rest := Batched(Range(lo + BatchSize, hi), BatchSize);
      assert bs == [Range(lo, lo + BatchSize)] + rest;
      assert NumBatches(hi - lo) == NumBatches(hi - lo - BatchSize) + 1;
      forall k | 0 <= k < NumBatches(hi - lo)
        ensures bs[k] == Range(lo + BatchSize * k, Min(lo + BatchSize * k + BatchSize, hi))
      {
        if k > 0 {
          assert bs[k] == rest[k - 1];
          assert lo + BatchSize + BatchSize * (k - 1) == lo + BatchSize * k;
        }
      }
    } else if hi > lo {
      assert bs == [s];
    }
  }

  // ---------------------------------------------------------------------------
  // What the loop as written stores
  // ---------------------------------------------------------------------------

  /** Position i is the last of its batch: 165, 331, ... and the final position n - 1. */
  predicate IsBatchLast(i: nat, n: nat) {
    i % BatchSize == BatchSize - 1 || i + 1 == n
  }

  /** The positions below m, of n records, that are not the last of their batch, ascending. */
  function KeptBelow(m: nat, n: nat): (idx: seq<nat>)
    ensures forall j :: 0 <= j < |idx| ==> idx[j] < m && idx[j] < n
  {
    if m == 0 then []
    else KeptBelow(m - 1, n) + (if m - 1 < n && !IsBatchLast(m - 1, n) then [m - 1] else [])
  }

  /** The positions the loop as written stores: those that are not the last of their batch. */
  function StoredIndices(n: nat): seq<nat> {
    KeptBelow(n, n)
  }

  lemma {:induction false} KeptBelowMembership(m: nat, n: nat, i: nat)
    ensures i in KeptBelow(m, n) <==> i < m && i < n && !IsBatchLast(i, n)
  {
    if m > 0 {
      KeptBelowMembership(m - 1, n, i);
    }
  }

  lemma {:induction false} KeptBelowIncreasing(m: nat, n: nat)
    ensures forall a, b :: 0 <= a < b < |KeptBelow(m, n)| ==> KeptBelow(m, n)[a] < KeptBelow(m, n)[b]
  {
    if m > 0 {
      KeptBelowIncreasing(m - 1, n);
    }
  }

  /** A position is stored exactly when it is not the last of its batch. */
  lemma StoredIndicesMembership(n: nat, i: nat)
    ensures i in StoredIndices(n) <==> i < n && !IsBatchLast(i, n)
  {
    KeptBelowMembership(n, n, i);
  }

  /** The stored positions are ascending, so no record is stored twice and the input order is kept. */
  lemma StoredIndicesIncreasing(n: nat)
    ensures forall a, b :: 0 <= a < b < |StoredIndices(n)| ==> StoredIndices(n)[a] < StoredIndices(n)[b]
  {
    KeptBelowIncreasing(n, n);
  }

  /** Within batch k, the kept positions are all of the batch up to, not including, its last. */
  lemma {:induction false} KeptBelowInBatch(k: nat, m: nat, n: nat)
    requires BatchSize * k <= m < BatchEnd(k, n)
    ensures KeptBelow(m, n) == KeptBelow(BatchSize * k, n) + Range(BatchSize * k, m)
    decreases m
  {
    if m > BatchSize * k {
      KeptBelowInBatch(k, m - 1, n);
      assert (m - 1) % BatchSize == m - 1 - BatchSize * k;
      assert Range(BatchSize * k, m) == Range(BatchSize * k, m - 1) + [m - 1];
    } else {
      assert Range(BatchSize * k, m) == [];
    }
  }

  /** Finishing batch k adds exactly the positions of that batch but its last. */
  lemma KeptBelowBatch(k: nat, n: nat)
    requires BatchSize * k < n
    ensures KeptBelow(BatchEnd(k, n), n) == KeptBelow(BatchSize * k, n) + Range(BatchSize * k, BatchEnd(k, n) - 1)
  {
    var e := BatchEnd(k, n);
    KeptBelowInBatch(k, e - 1, n);
    assert (e - 1) % BatchSize == e - 1 - BatchSize * k;
    assert IsBatchLast(e - 1, n);
  }

  lemma {:induction false} KeptBelowLength(k: nat, n: nat)
    requires k <= NumBatches(n)
    ensures |KeptBelow(Min(BatchSize * k, n), n)| == Min(BatchSize * k, n) - k
  {
    if k > 0 {
      KeptBelowLength(k - 1, n);
      NumBatchesBound(n, k - 1);
      KeptBelowBatch(k - 1, n);
      assert BatchEnd(k - 1, n) == Min(BatchSize * k, n);
    }
  }

  /** The loop as written stores n - ceil(n / 166) of the n records. */
  lemma StoredIndicesLength(n: nat)
    ensures |StoredIndices(n)| == n - NumBatches(n)
  {
    KeptBelowLength(NumBatches(n), n);
    assert Min(BatchSize * NumBatches(n), n) == n;
  }

  /** The record at the last position of every batch (165, 331, ..., n - 1) is never
      stored: when ids are distinct, no stored record carries its id. */
  lemma BatchLastNeverStored<M>(ids: seq<string>, documents: seq<string>, metadatas: seq<M>, k: nat)
    requires |ids| == |documents| == |metadatas|
    requires forall a, b :: 0 <= a < b < |ids| ==> ids[a] != ids[b]
    requires k < NumBatches(|ids|)
    ensures 0 <= BatchEnd(k, |ids|) - 1 < |ids|
    ensures forall e :: e in EntriesAt(ids, documents, metadatas, StoredIndices(|ids|)) ==>
      e.id != ids[BatchEnd(k, |ids|) - 1]
  {
    var n := |ids|;
    var last := BatchEnd(k, n) - 1;
    var idx := StoredIndices(n);
    var es := EntriesAt(ids, documents, metadatas, idx);
    assert last % BatchSize == last - BatchSize * k;
    forall e | e in es ensures e.id != ids[last] {
      var j :| 0 <= j < |es| && es[j] == e;
      StoredIndicesMembership(n, idx[j]);
      assert idx[j] != last;
    }
  }

  /** The loop as written stores fewer records than it is given whenever it is given any:
      one record, for instance, stores nothing. */
  lemma AsWrittenDropsRecords(n: nat)
    requires n > 0
    ensures |StoredIndices(n)| < n
    ensures StoredIndices(1) == []
  {
    StoredIndicesLength(n);
    StoredIndicesLength(1);
  }

  /** 500 records: four batches, and the records at 165, 331, 497 and 499 are left out. */
  lemma FiveHundredRecords()
    ensures |Batched(Range(0, 500), BatchSize)| == 4
    ensures |StoredIndices(500)| == 496
    ensures 165 !in StoredIndices(500) && 331 !in StoredIndices(500)
    ensures 497 !in StoredIndices(500) && 499 !in StoredIndices(500)
  {
    assert NumBatches(500) == 4;
    BatchedRange(0, 500);
    StoredIndicesLength(500);
    StoredIndicesMembership(500, 165);
    StoredIndicesMembership(500, 331);
    StoredIndicesMembership(500, 497);
    StoredIndicesMembership(500, 499);
  }

  lemma EntriesAtAppendRange<M>(ids: seq<string>, documents: seq<string>, metadatas: seq<M>,
                                idx: seq<nat>, lo: nat, hi: nat)
    requires |ids| == |documents| == |metadatas|
    requires forall j :: 0 <= j < |idx| ==> idx[j] < |ids|
    requires lo <= hi <= |ids|
    ensures EntriesAt(ids, documents, metadatas, idx + Range(lo, hi))
         == EntriesAt(ids, documents, metadatas, idx) + Entries(ids[lo..hi], documents[lo..hi], metadatas[lo..hi])
  {
  }

  /** The first and last positions of batch k of `batched(range(n), 166)`. */
  lemma BatchEnds(n: nat, k: nat)
    requires k < |Batched(Range(0, n), BatchSize)|
    ensures BatchSize * k < n && k < NumBatches(n)
    ensures BatchEnd(k, n) == Min(BatchSize * (k + 1), n)
    ensures var batch := Batched(Range(0, n), BatchSize)[k];
      batch[0] == BatchSize * k && batch[|batch| - 1] == BatchEnd(k, n) - 1
  {
    BatchedRange(0, n);
    NumBatchesBound(n, k);
  }

  /** One pass of the loop as written: the slice of batch k extends the stored records
      by the positions of that batch but its last. */
  lemma AsWrittenStep<M>(ids: seq<string>, documents: seq<string>, metadatas: seq<M>, k: nat)
    requires |ids| == |documents| == |metadatas|
    requires k < NumBatches(|ids|)
    ensures BatchSize * k <= BatchEnd(k, |ids|) - 1
    ensures EntriesAt(ids, documents, metadatas, KeptBelow(Min(BatchSize * (k + 1), |ids|), |ids|))
         == EntriesAt(ids, documents, metadatas, KeptBelow(Min(BatchSize * k, |ids|), |ids|))
            + AsWrittenBatch(ids, documents, metadatas, k)
    ensures |AsWrittenBatch(ids, documents, metadatas, k)| == BatchEnd(k, |ids|) - BatchSize * k - 1
  {
    var n := |ids|;
    NumBatchesBound(n, k);
    KeptBelowBatch(k, n);
    EntriesAtAppendRange(ids, documents, metadatas, KeptBelow(BatchSize * k, n), BatchSize * k, BatchEnd(k, n) - 1);
    assert BatchEnd(k, n) == Min(BatchSize * (k + 1), n);
  }

  // ---------------------------------------------------------------------------
  // build_chroma_collection (chroma_utils.py:6-62)
  // ---------------------------------------------------------------------------

  /** The records `add` receives for batch k of n: positions [166k, last of batch k). */
  function AsWrittenBatch<M>(ids: seq<string>, documents: seq<string>, metadatas: seq<M>, k: nat): (b: seq<Entry<M>>)
    requires |ids| == |documents| == |metadatas|
    requires k < NumBatches(|ids|)
    ensures |b| == BatchEnd(k, |ids|) - BatchSize * k - 1
  {
    NumBatchesBound(|ids|, k);
    var lo, hi := BatchSize * k, BatchEnd(k, |ids|) - 1;
    Entries(ids[lo..hi], documents[lo..hi], metadatas[lo..hi])
  }

  /** The records of the first k `add` calls of the loop as written, one element per call. */
  function AsWrittenBatches<M>(ids: seq<string>, documents: seq<string>, metadatas: seq<M>, k: nat): seq<seq<Entry<M>>>
    requires |ids| == |documents| == |metadatas|
    requires k <= NumBatches(|ids|)
  {
    seq(k, j requires 0 <= j < k => AsWrittenBatch(ids, documents, metadatas, j))
  }

  /** What the first k calls of the loop as written store, put together: the positions
      below 166k that are not the last of their batch. */
  lemma {:induction false} AsWrittenContents<M>(ids: seq<string>, documents: seq<string>, metadatas: seq<M>, k: nat)
    requires |ids| == |documents| == |metadatas|
    requires k <= NumBatches(|ids|)
    ensures Flatten(AsWrittenBatches(ids, documents, metadatas, k))
         == EntriesAt(ids, documents, metadatas, KeptBelow(Min(BatchSize * k, |ids|), |ids|))
  {
    if k > 0 {
      AsWrittenContents(ids, documents, metadatas, k - 1);
      var previous := AsWrittenBatches(ids, documents, metadatas, k - 1);
      assert AsWrittenBatches(ids, documents, metadatas, k) == previous + [AsWrittenBatch(ids, documents, metadatas, k - 1)];
      FlattenAppend(previous, AsWrittenBatch(ids, documents, metadatas, k - 1));
      AsWrittenStep(ids, documents, metadatas, k - 1);
      assert BatchSize * (k - 1 + 1) == BatchSize * k;
    }
  }

  /** The records `add` receives for batch k of n with the intended slice: the whole batch. */
  function FixedBatch<M>(ids: seq<string>, documents: seq<string>, metadatas: seq<M>, k: nat): (b: seq<Entry<M>>)
    requires |ids| == |documents| == |metadatas|
    requires k < NumBatches(|ids|)
    ensures |b| == BatchEnd(k, |ids|) - BatchSize * k
  {
    NumBatchesBound(|ids|, k);
    var lo, hi := BatchSize * k, BatchEnd(k, |ids|);
    Entries(ids[lo..hi], documents[lo..hi], metadatas[lo..hi])
  }

  /** The records of the first k `add` calls of the corrected loop, one element per call. */
  function FixedBatches<M>(ids: seq<string>, documents: seq<string>, metadatas: seq<M>, k: nat): seq<seq<Entry<M>>>
    requires |ids| == |documents| == |metadatas|
    requires k <= NumBatches(|ids|)
  {
    seq(k, j requires 0 <= j < k => FixedBatch(ids, documents, metadatas, j))
  }

  /** The records of a prefix followed by the records of the next slice are the records
      of the longer prefix. */
  lemma EntriesPrefix<M>(ids: seq<string>, documents: seq<string>, metadatas: seq<M>, lo: nat, hi: nat)
    requires |ids| == |documents| == |metadatas|
    requires lo <= hi <= |ids|
    ensures Entries(ids[..hi], documents[..hi], metadatas[..hi])
         == Entries(ids[..lo], documents[..lo], metadatas[..lo]) + Entries(ids[lo..hi], documents[lo..hi], metadatas[lo..hi])
  {
  }

  /** What the first k calls of the corrected loop store, put together: every record
      below 166k, in input order. */
  lemma {:induction false} FixedContents<M>(ids: seq<string>, documents: seq<string>, metadatas: seq<M>, k: nat)
    requires |ids| == |documents| == |metadatas|
    requires k <= NumBatches(|ids|)
    ensures var done := Min(BatchSize * k, |ids|);
      Flatten(FixedBatches(ids, documents, metadatas, k)) == Entries(ids[..done], documents[..done], metadatas[..done])
  {
    if k > 0 {
      FixedContents(ids, documents, metadatas, k - 1);
      var previous := FixedBatches(ids, documents, metadatas, k - 1);
      assert FixedBatches(ids, documents, metadatas, k) == previous + [FixedBatch(ids, documents, metadatas, k - 1)];
      FlattenAppend(previous, FixedBatch(ids, documents, metadatas, k - 1));
      NumBatchesBound(|ids|, k - 1);
      assert BatchEnd(k - 1, |ids|) == Min(BatchSize * k, |ids|);
      EntriesPrefix(ids, documents, metadatas, BatchSize * (k - 1), BatchEnd(k - 1, |ids|));
    }
  }

  /** There are ceil(n / 166) batches of `range(n)`. */
  lemma NumBatchesOfRange(n: nat)
    ensures |Batched(Range(0, n), BatchSize)| == NumBatches(n)
  {
    BatchedRange(0, n);
  }

  /** One pass of the loop as written: the slice `[batch[0]:batch[-1]]` of batch k is
      AsWrittenBatch, and submitting it extends the calls so far and their records. */
  lemma AsWrittenLoopStep<M>(ids: seq<string>, documents: seq<string>, metadatas: seq<M>, k: nat,
                             previous: seq<seq<Entry<M>>>)
    requires |ids| == |documents| == |metadatas|
    requires k < |Batched(Range(0, |ids|), BatchSize)|
    requires k < NumBatches(|ids|) && previous == AsWrittenBatches(ids, documents, metadatas, k)
    ensures var batch := Batched(Range(0, |ids|), BatchSize)[k];
      var lo, hi := batch[0], batch[|batch| - 1];
      && 0 <= lo <= hi < |ids|
      && Entries(ids[lo..hi], documents[lo..hi], metadatas[lo..hi]) == AsWrittenBatch(ids, documents, metadatas, k)
      && AsWrittenBatches(ids, documents, metadatas, k + 1) == previous + [AsWrittenBatch(ids, documents, metadatas, k)]
      && Flatten(previous + [AsWrittenBatch(ids, documents, metadatas, k)])
         == Flatten(previous) + AsWrittenBatch(ids, documents, metadatas, k)
  {
    BatchEnds(|ids|, k);
    FlattenAppend(previous, AsWrittenBatch(ids, documents, metadatas, k));
    assert AsWrittenBatches(ids, documents, metadatas, k + 1) == previous + [AsWrittenBatch(ids, documents, metadatas, k)];
  }

  /** One pass of the corrected loop: the slice `[batch[0]:batch[-1] + 1]` of batch k is
      FixedBatch, and submitting it extends the calls so far and their records. */
  lemma FixedLoopStep<M>(ids: seq<string>, documents: seq<string>, metadatas: seq<M>, k: nat,
                         previous: seq<seq<Entry<M>>>)
    requires |ids| == |documents| == |metadatas|
    requires k < |Batched(Range(0, |ids|), BatchSize)|
    requires k < NumBatches(|ids|) && previous == FixedBatches(ids, documents, metadatas, k)
    ensures var batch := Batched(Range(0, |ids|), BatchSize)[k];
      var lo, hi := batch[0], batch[|batch| - 1] + 1;
      && 0 <= lo < hi <= |ids|
      && Entries(ids[lo..hi], documents[lo..hi], metadatas[lo..hi]) == FixedBatch(ids, documents, metadatas, k)
      && FixedBatches(ids, documents, metadatas, k + 1) == previous + [FixedBatch(ids, documents, metadatas, k)]
      && Flatten(previous + [FixedBatch(ids, documents, metadatas, k)])
         == Flatten(previous) + FixedBatch(ids, documents, metadatas, k)
  {
    BatchEnds(|ids|, k);
    FlattenAppend(previous, FixedBatch(ids, documents, metadatas, k));
    assert FixedBatches(ids, documents, metadatas, k + 1) == previous + [FixedBatch(ids, documents, metadatas, k)];
  }

  /** Creates the collection and adds the records batch by batch, slicing each batch
      as `[batch[0]:batch[-1]]` exactly as the source does. */
  method BuildChromaCollection<M>(
    client: Client,
    collectionName: string,
    embeddingFuncName: string,
    ids: seq<string>,
    documents: seq<string>,
    metadatas: seq<M>,
    distanceFuncName: string := DefaultDistanceFuncName)
    returns (r: CreateOutcome<M>)
    requires |ids| == |documents| == |metadatas|
    modifies client
    ensures collectionName in old(client.collectionNames) ==>
      r == AlreadyExists && client.collectionNames == old(client.collectionNames)
    ensures collectionName !in old(client.collectionNames) ==>
      && r.Created? && fresh(r.collection)
      && client.collectionNames == old(client.collectionNames) + {collectionName}
      && r.collection.name == collectionName
      && r.collection.embeddingFuncName == embeddingFuncName
      && r.collection.metadata == map[SpaceKey := distanceFuncName]
      && |r.collection.submissions| == NumBatches(|documents|)
      && (forall k :: 0 <= k < NumBatches(|documents|) ==>
            r.collection.submissions[k] == AsWrittenBatch(ids, documents, metadatas, k)
            && |r.collection.submissions[k]| == BatchEnd(k, |documents|) - BatchSize * k - 1)
      && r.collection.contents == Flatten(r.collection.submissions)
      && r.collection.contents == EntriesAt(ids, documents, metadatas, StoredIndices(|documents|))
  {
    r := client.CreateCollection<M>(collectionName, embeddingFuncName, map[SpaceKey := distanceFuncName]);
    if r.AlreadyExists? {
      return;
    }
    var collection := r.collection;
    ghost var n := |documents|;
    var documentIndices := Range(0, |documents|);
    var batches := Batched(documentIndices, BatchSize);
    NumBatchesOfRange(n);
    var k := 0;
    while k < |batches|
      modifies collection
      invariant k <= |batches| == NumBatches(n)
      invariant collection.submissions == AsWrittenBatches(ids, documents, metadatas, k)
      invariant collection.contents == Flatten(collection.submissions)
    {
      AsWrittenLoopStep(ids, documents, metadatas, k, collection.submissions);
      var batch := batches[k];
      var startIdx := batch[0];
      var endIdx := batch[|batch| - 1];
      collection.Add(ids[startIdx..endIdx], documents[startIdx..endIdx], metadatas[startIdx..endIdx]);
      k := k + 1;
    }
    AsWrittenContents(ids, documents, metadatas, k);
    assert Min(BatchSize * k, n) == n;
  }

  /** The batches with the slice each batch evidently intended, `[batch[0]:batch[-1] + 1]`:
      every record of the input is stored, once, in input order. */
  method BuildChromaCollectionFixed<M>(
    client: Client,
    collectionName: string,
    embeddingFuncName: string,
    ids: seq<string>,
    documents: seq<string>,
    metadatas: seq<M>,
    distanceFuncName: string := DefaultDistanceFuncName)
    returns (r: CreateOutcome<M>)
    requires |ids| == |documents| == |metadatas|
    modifies client
    ensures collectionName in old(client.collectionNames) ==>
      r == AlreadyExists && client.collectionNames == old(client.collectionNames)
    ensures collectionName !in old(client.collectionNames) ==>
      && r.Created? && fresh(r.collection)
      && client.collectionNames == old(client.collectionNames) + {collectionName}
      && r.collection.name == collectionName
      && r.collection.embeddingFuncName == embeddingFuncName
      && r.collection.metadata == map[SpaceKey := distanceFuncName]
      && |r.collection.submissions| == NumBatches(|documents|)
      && (forall k :: 0 <= k < NumBatches(|documents|) ==>
            r.collection.submissions[k] == FixedBatch(ids, documents, metadatas, k))
      && r.collection.contents == Flatten(r.collection.submissions)
      && r.collection.contents == Entries(ids, documents, metadatas)
  {
    r := client.CreateCollection<M>(collectionName, embeddingFuncName, map[SpaceKey := distanceFuncName]);
    if r.AlreadyExists? {
      return;
    }
    var collection := r.collection;
    ghost var n := |documents|;
    var documentIndices := Range(0, |documents|);
    var batches := Batched(documentIndices, BatchSize);
    NumBatchesOfRange(n);
    var k := 0;
    while k < |batches|
      modifies collection
      invariant k <= |batches| == NumBatches(n)
      invariant collection.submissions == FixedBatches(ids, documents, metadatas, k)
      invariant collection.contents == Flatten(collection.submissions)
    {
      FixedLoopStep(ids, documents, metadatas, k, collection.submissions);
      var batch := batches[k];
      var startIdx := batch[0];
      var endIdx := batch[|batch| - 1];
      collection.Add(ids[startIdx..endIdx + 1], documents[startIdx..endIdx + 1], metadatas[startIdx..endIdx + 1]);
      k := k + 1;
    }
    FixedContents(ids, documents, metadatas, k);
    assert Min(BatchSize * k, n) == n;
    assert ids[..n] == ids && documents[..n] == documents && metadatas[..n] == metadatas;
  }
}
