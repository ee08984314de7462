# Car-review retrieval pipeline: preparation and batched indexing

This project models, in Dafny, the two deterministic parts of a small pipeline
that indexes customer car reviews into a vector store:

- **Review-record preparation** (`prepare_car_reviews_data`, module `CarDataEtl`,
  file `car_data_etl.dfy`). Each scanned review row gets two derived columns,
  `Vehicle_Year` and `Vehicle_Model`, taken from token 0 and token 1 of the
  space-split `Vehicle_Title`. Rows whose year is not among the accepted years
  (default `[2017]`) are dropped. The rest are projected to five columns and
  sorted by `(Vehicle_Model, Rating)`. The result is three parallel lists: ids
  `review0 … review{n-1}`, the review texts, and one metadata record per row
  holding every retained column except the review text. This part is pure, so
  it is written as functions over sequences plus lemmas.
- **Batched indexing** (`build_chroma_collection`, module `ChromaUtils`, file
  `chroma_utils.dfy`). The function creates a named collection in a store. The
  collection carries the embedding model's name and the metadata
  `{"hnsw:space": distance_func_name}`, whose default is `"cosine"`. The
  function then splits the positions `0 … n-1` into consecutive batches of 166
  and calls `add` once per batch. The store (`Client`) and the collection
  (`Collection`) are classes whose fields the methods update. `Add` appends
  `(id, document, metadata)` entries. A ghost field records what each call
  received. The loop is a `while` loop with invariants.

The loop slices every batch as `[batch[0]:batch[-1]]`, which leaves out the
last position of every batch. The model keeps that behaviour and proves what
it stores, which is n − ⌈n/166⌉ of the n records. A corrected variant is
proved to store all n records in order (see "## Findings").

Two points of the source shape the model:

- `Vehicle_Model` is token 1 of the title only (`list.get(1)`,
  car_data_etl.py:37), not the rest of the title, so `"2017 Toyota Camry SE"`
  gives `"Toyota"`. `VehicleModel` and `TitleFields` state this.
- The comment at chroma_utils.py:52-53 says each batch's documents are added;
  the slicing at chroma_utils.py:59-61 does not add the last one (see
  "## Findings"). The as-written method follows the slicing, and the corrected
  one is a separate member.

## Model

| member | source | states |
|---|---|---|
| `CarDataEtl.Split` | car_data_etl.py:36-37 | Splitting a title on `" "` yields at least one token, and no token contains a space. |
| `CarDataEtl.JoinSplit` | car_data_etl.py:36-37 | Joining the tokens back with single spaces restores the title exactly, so the split loses nothing. |
| `CarDataEtl.SplitJoin` | car_data_etl.py:36-37 | Splitting the join of space-free tokens gives those tokens back. Together with JoinSplit, split and join are inverse. |
| `CarDataEtl.DigitsValueNatToString` | car_data_etl.py:36 | Casting the decimal rendering of a number to an integer gives the number back. |
| `CarDataEtl.VehicleYear` | car_data_etl.py:36 | `Vehicle_Year` is token 0 of the title, cast to an integer. The value lies in 0 … Int64 max. TitleFields pins it down for a concrete year. |
| `CarDataEtl.VehicleModel` | car_data_etl.py:37 | `Vehicle_Model` is token 1 of the title. It contains no space, so it is one word and never the rest of the title. TitleFields and TitleLayout locate it in the text. |
| `CarDataEtl.TitleFields` | car_data_etl.py:36-37 | A title "year model[ …]" with a space-free model is well formed. Its `Vehicle_Year` is that year, and its `Vehicle_Model` is that one token, not the rest of the title. |
| `CarDataEtl.TitleLayout` | car_data_etl.py:36-37 | In every well-formed title, token 0 is the text before the first space. Token 1 is the text between that space and the next space or the end. |
| `CarDataEtl.WithVehicleColumns` | car_data_etl.py:34-39 | `with_columns` on one row keeps the row whole and adds its year, in Int64 range, and its one-word model. |
| `CarDataEtl.WithVehicleColumnsAll` | car_data_etl.py:34-39 | `with_columns` gives exactly one derived row per input row and keeps each original row unchanged. The derived columns of row i come from row i's own title. |
| `CarDataEtl.FilterYears` | car_data_etl.py:40 | The filter never grows the table, and every row it keeps has an accepted year. FilterYearsCount and FilterYearsMembership characterise it completely. |
| `CarDataEtl.FilterYearsCount` | car_data_etl.py:40 | The year filter keeps every row whose year is accepted, as many times as it occurs in the input. It keeps no other row. |
| `CarDataEtl.FilterYearsMembership` | car_data_etl.py:40 | A row is in the filtered table if and only if it is in the input and its year is accepted. |
| `CarDataEtl.SelectColumnsAll` | car_data_etl.py:41 | `select` gives one record per row, holding exactly that row's `Review_Title`, `Review`, `Rating`, `Vehicle_Year` and `Vehicle_Model`. |
| `CarDataEtl.AcceptedRows` | car_data_etl.py:40 | The accepted input rows are stated on the scanned rows themselves. Each one is an input row whose parsed year is accepted. |
| `CarDataEtl.AcceptedRowsAgrees` | car_data_etl.py:34-40 | Filtering the derived table on `Vehicle_Year` is the same as deriving the columns of exactly the accepted input rows, in input order. |
| `CarDataEtl.StrLeTotal` | car_data_etl.py:42 | The string order used for `Vehicle_Model` is total. |
| `CarDataEtl.StrLeAntisymmetric` | car_data_etl.py:42 | Two strings that are each ≤ the other are equal. |
| `CarDataEtl.StrLeTransitive` | car_data_etl.py:42 | The string order is transitive. |
| `CarDataEtl.KeyLeTotal` | car_data_etl.py:42 | Any two rows are comparable under the (model, rating) key. |
| `CarDataEtl.KeyLeTransitive` | car_data_etl.py:42 | The (model, rating) key order is transitive, so it is a total preorder that a sort can use. |
| `CarDataEtl.Insert` | car_data_etl.py:42 | Inserting a row into a sorted table leaves it sorted, and the result is the old table plus that one row, as a multiset. |
| `CarDataEtl.SortByModelRating` | car_data_etl.py:42 | The sort returns a permutation of its input that is ascending by model, and by rating among rows of one model. Tie order is left open. |
| `CarDataEtl.NormalizedRows` | car_data_etl.py:33-44 | The collected table is sorted by (model, rating). It is a permutation of the derived, year-filtered and projected rows. |
| `CarDataEtl.NormalizedRowsSound` | car_data_etl.py:36-44 | Each normalized record has an accepted year and is the projection of some input row. |
| `CarDataEtl.NormalizedRowsComplete` | car_data_etl.py:36-44 | Each input row whose year is accepted appears, projected, in the normalized table. |
| `CarDataEtl.NormalizedRowsFilter` | car_data_etl.py:36-44 | Every record of the table has an accepted year and equals the projection of some input row. Every input row whose parsed year is accepted appears in the table. |
| `CarDataEtl.NormalizedRowsCount` | car_data_etl.py:40-44 | The table has exactly as many records as there are input rows with an accepted year. |
| `CarDataEtl.Id` | car_data_etl.py:47 | The id `review{i}` is the prefix `review` followed by a non-empty run of decimal digits. IdIndexId reads i back out of it. |
| `CarDataEtl.IdIndexId` | car_data_etl.py:47 | Reading the digits after the prefix of `review{i}` back gives i. |
| `CarDataEtl.IdInjective` | car_data_etl.py:47 | Different positions get different ids. |
| `CarDataEtl.MetadataOf` | car_data_etl.py:49 | `drop("Review")` on one record. It has no contract. ChromaDataRoundTrip shows that it keeps every column except `Review`, because the metadata and the review text together rebuild the record. |
| `CarDataEtl.ToChromaData` | car_data_etl.py:47-49 | `ids`, `documents` and `metadatas` all have one element per record. |
| `CarDataEtl.ChromaDataRoundTrip` | car_data_etl.py:47-49 | At each i, `documents[i]` and `metadatas[i]` together rebuild record i exactly, so the three lists are index-aligned and lose nothing. |
| `CarDataEtl.ChromaDataIds` | car_data_etl.py:47 | The ids are exactly `review0 … review{n-1}` for n records, and they are pairwise distinct. |
| `CarDataEtl.AcceptedRowsProjected` | car_data_etl.py:40-49 | Every input row with an accepted year has some position i where `documents[i]` is its review text and `metadatas[i]` is its metadata. |
| `CarDataEtl.PrepareCarReviewsData` | car_data_etl.py:4-51 | The three lists have equal length: the number of input rows with an accepted year. Ids are `review{i}`. Each position i holds the review and metadata of one input row, whose year is accepted. Every accepted input row appears at some position. The rebuilt records are sorted by (model, rating) and are a permutation of the filtered, projected rows. |
| `CarDataEtl.PrepareCarReviewsDataDefault` | car_data_etl.py:4 | With `vehicle_years` left at its default, exactly the year 2017 is accepted. Every output metadata has year 2017, and every input row of year 2017 appears at some position. |
| `CarDataEtl.OneAcceptedRow` | car_data_etl.py:4-51 | Three rows of years 2016, 2016 and 2017 under the default years yield `ids == ["review0"]`. |
| `ChromaUtils.Collection.constructor` | chroma_utils.py:44-48 | A new collection keeps its name, embedding model name and metadata, and starts with no records. |
| `ChromaUtils.Collection.Add` | chroma_utils.py:58-62 | `add` appends the triples of its three equal-length lists, in order, after the records already stored. It also logs the call. |
| `ChromaUtils.Client.CreateCollection` | chroma_utils.py:44-48 | A name the store already holds gives `AlreadyExists`, and the store is unchanged. Otherwise the store gains the name and returns a fresh, empty collection with the given embedding name and metadata. |
| `ChromaUtils.Range` | chroma_utils.py:50 | `list(range(lo, hi))` has hi − lo elements, and element i is lo + i. |
| `ChromaUtils.Batched` | chroma_utils.py:54 | For a batch size n (166 at the call), every batch is non-empty and holds at most n elements. Every batch but the last holds exactly n. |
| `ChromaUtils.BatchedFlatten` | chroma_utils.py:54 | Concatenating the batches gives the input back: no element is dropped, repeated or reordered. |
| `ChromaUtils.FlattenAppend` | chroma_utils.py:58-62 | The records of one more `add` call come after those of the earlier calls. |
| `ChromaUtils.BatchedRange` | chroma_utils.py:50-54 | The batches of `range(n)` number ⌈n/166⌉ (none when n = 0). Batch k is exactly the positions [166k, min(166(k+1), n)). |
| `ChromaUtils.AsWrittenBatch` | chroma_utils.py:55-61 | Call k of the loop as written receives the records at positions [166k, last of batch k), which is BatchEnd(k, n) − 166k − 1 records. |
| `ChromaUtils.AsWrittenLoopStep` | chroma_utils.py:54-62 | One pass of the loop as written: the slice `[batch[0]:batch[-1]]` lies within the input and is AsWrittenBatch. Submitting it extends the list of calls and the stored records by that batch. |
| `ChromaUtils.AsWrittenContents` | chroma_utils.py:54-62 | The records of the first k calls of the loop as written, taken together, are the records at the positions below 166k that are not the last of their batch. |
| `ChromaUtils.AsWrittenStep` | chroma_utils.py:55-61 | Batch k's slice `[batch[0]:batch[-1]]` holds len(batch) − 1 records. They are the batch's positions except its last. |
| `ChromaUtils.StoredIndicesMembership` | chroma_utils.py:54-62 | A position is stored by the loop as written if and only if it is below n and is not the last position of its batch. |
| `ChromaUtils.StoredIndicesIncreasing` | chroma_utils.py:54-62 | The stored positions are strictly ascending. The stored records are an order-preserving subsequence of the input with no position stored twice. |
| `ChromaUtils.StoredIndicesLength` | chroma_utils.py:54-62 | The loop as written stores exactly n − ⌈n/166⌉ records. |
| `ChromaUtils.BatchLastNeverStored` | chroma_utils.py:55-62 | When ids are distinct, no stored record has the id at the last position of any batch (165, 331, …, n−1). |
| `ChromaUtils.AsWrittenDropsRecords` | chroma_utils.py:52-62 | For every n > 0, fewer than n records are stored, contrary to the comment at lines 52-53. A single document stores nothing. |
| `ChromaUtils.FiveHundredRecords` | chroma_utils.py:50-62 | 500 records form 4 batches. 496 records are stored, and positions 165, 331, 497 and 499 are left out. |
| `ChromaUtils.BuildChromaCollection` | chroma_utils.py:6-62 | On a taken name, the result is `AlreadyExists` and nothing changes. Otherwise the store gains exactly that name. The new collection has the given embedding name and metadata `{"hnsw:space": distance}`, default "cosine". `add` is called once per batch, in batch order, and call k receives the slice of positions [166k, last of batch k). The final contents are the concatenation of the submitted slices, and they are the records at the stored positions, in order. |
| `ChromaUtils.FixedBatch` | chroma_utils.py:55-61 | With the intended slice `[batch[0]:batch[-1]+1]`, call k receives the whole of batch k, which is BatchEnd(k, n) − 166k records. |
| `ChromaUtils.FixedLoopStep` | chroma_utils.py:54-62 | One pass of the corrected loop: the slice lies within the input and is FixedBatch. Submitting it extends the list of calls and the stored records by that batch. |
| `ChromaUtils.FixedContents` | chroma_utils.py:54-62 | The records of the first k calls of the corrected loop, taken together, are every record below position min(166k, n), in input order. |
| `ChromaUtils.BuildChromaCollectionFixed` | chroma_utils.py:50-62 | This is the same loop with the slice `[batch[0]:batch[-1]+1]`. It makes one call per batch, and call k receives the whole of batch k. The final contents are the concatenation of the submitted slices and are all n records, once each, in input order. |

## Left out

- CSV reading (`pl.scan_csv` with the glob path and the column types, car_data_etl.py:21-30) is I/O. The model starts from the sequence of typed rows.
- The embedding function, the cosine distance and the HNSW index (chroma_utils.py:36-38, 47) are a foreign model plus floating-point numerics. A collection keeps the embedding model's name, and `Add` only appends.
- `chromadb.PersistentClient(chroma_path)` (chroma_utils.py:33) and on-disk persistence are not modelled. The store is a `Client` object that knows its collection names and is passed in. How chromadb itself reacts to an existing name is library code; it is modelled as the `AlreadyExists` outcome instead of an exception.
- chromadb's own validation inside `add` (what it does with an empty call or a repeated id) is library code and is not modelled. `Add` is a plain append, so a trailing batch of size 1 adds nothing.
- `Rating` is a Float64 column that is only compared. It is modelled as an integer key.
- `Vehicle_Model` order: strings are compared character by character by code point. This agrees with byte order for UTF-8 text. Collation and null ordering are not modelled.
- Nulls, titles with fewer than two tokens, first tokens that are not unsigned decimal digits (signs such as `-1`, which the strict cast accepts, are not modelled) and years outside the Int64 range are not given any behaviour. `AllTitlesWellFormed` is a precondition of the preparation functions. Polars' strict cast would raise on any such row, even one the filter would drop.
- The order among rows with equal `(Vehicle_Model, Rating)` is left open, because polars' sort is not stable by default. The sort is specified only as sorted and a permutation.
- The metadata dictionaries of `to_dicts` are a fixed record with the four columns other than `Review`, in the order polars keeps them. Their key strings are not modelled.
- `batched` is a generator in the source. The model computes the whole list of batches before the loop, which gives the same batches in the same order.
- ChromaUtils.BuildChromaCollection: requires `ids`, `documents` and `metadatas` to have equal length. Python would slice shorter lists short, and chromadb would reject the mismatched call; that path is not modelled.
- app.py is not part of this model. It holds the constants, the delete-if-exists helper that only prints, the nearest-neighbour query and `main`.

## Findings

| source | as written | input that shows it | evidently intended | confidence | as-written member | corrected member |
|---|---|---|---|---|---|---|
| chroma_utils.py:55-61 | Each batch is added as `ids[batch[0]:batch[-1]]` (and the same for documents and metadatas). This half-open slice ends at the batch's last position, so that record is never added. | One document: the only batch is `[0]`, the slice `[0:0]` is empty, and nothing is stored. 500 documents: only 496 are stored. | The slice `[batch[0]:batch[-1] + 1]`, which adds every document of the batch, as the comment at lines 52-53 says. | not executed | `ChromaUtils.BuildChromaCollection`, with `ChromaUtils.AsWrittenDropsRecords` and `ChromaUtils.FiveHundredRecords` | `ChromaUtils.BuildChromaCollectionFixed` |
