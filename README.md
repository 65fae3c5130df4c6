# SAUCIE data set sampler and activation binarizer, in Dafny

This project models two stateful pieces of SAUCIE's `saucie_utils.py` and proves properties of them.

- **`DataSet`**: holds the training matrix `_data`, its labels `_labels` and the test split. It hands out minibatches through `next_batch`, a small state machine over three counters: `_index_in_epoch`, `_epochs_trained` and `_batch_number`. A batch holds exactly `batch_size` rows. When the current epoch cannot supply them, the batch takes the tail of the current row order. The data set is then reshuffled, if shuffling is on, and the batch takes the head of the new order. `_shuffle_data` applies one random index vector to data and labels alike.
- **`binarize`**: labels each point by the on/off pattern of its activations (`acts > thresh`). Points with equal patterns form a group. The groups are taken in the order of `unique_rows`. The first group keeps label 0. Group k gets label k, or -1 when it has fewer than `bin_min` points.

Files:

- `wrappers.dfy`: `Option` and `Result`, used for the places where the Python code raises.
- `permutations.dfy`: index vectors that rearrange `np.arange(n)`, and fancy indexing `s[p]`. It proves that a shuffle keeps the multiset of rows and keeps every row with its label.
- `sampling.dfy`: the sampler as pure functions. `Advance` moves the counters and `TakeBatch` cuts a batch. `Run` chains several calls. The lemmas describe what runs of calls return.
- `dataset.dfy`: the `DataSet` class. Its fields are the Python attributes. Its methods `ShuffleData` and `NextBatch` update those fields and are specified by the functions of `sampling.dfy`. `NewDataSet` is `__init__` together with its assertions.
- `binarize.dfy`: `Binarize` runs a loop over the enumerated patterns and writes into a label array. It is specified by the function `Labels`, and lemmas state the properties of `Labels`.

Modelling choices:

- Rows and labels are opaque values of type parameters `T` and `L`. Matrices are sequences of rows.
- `np.random.shuffle` becomes an index vector `perm` supplied by the caller. It is any permutation of `[0, n)`. The constructor and `NextBatch` require it to be one only when shuffling is on.
- The assertions of `__init__` and `next_batch` become `Failure` results. A failing call changes nothing, exactly as the Python code fails before it assigns anything.
- The getters `epochs_trained`, `batch_number`, `index_in_epoch`, `num_samples`, `data`, `labels`, `labeled`, `test_data` and `test_labels` are the class's fields. `DataSet.Position` bundles the three counters.
- The order of `unique_rows` comes from a Python set. It is a parameter of `Binarize`: any duplicate-free list of exactly the patterns that occur.
- `index_in_epoch` can equal n: a batch that exactly fills the epoch leaves it there, and the epoch counter moves only on the next call (`Sampling.ExactFitDoesNotWrap`, `Sampling.WrapAfterExactFit`). The object invariant therefore allows an index in `[0, n]`.
- `next_batch(0)` is accepted. It returns an empty batch and only increments `batch_number`.

## Model

| member | source | states |
|---|---|---|
| `DataSets.NewDataSet` | saucie_utils.py:235-248 | A labelled data set fails with `MissingLabels` when no labels are given, and with `RowCountMismatch` when the labels do not have one entry per row. Otherwise it succeeds: the counters start at 0, `numSamples` is the row count, and data and labels are permuted once when shuffling. |
| `DataSets.DataSet.constructor` | saucie_utils.py:240-248 | With valid arguments, the counters are (0, 0, 0) and `numSamples == |data|`. When shuffling, data and (if labelled) labels are permuted by the same vector. The test split is stored as given. |
| `DataSets.DataSet.Len` | saucie_utils.py:250-251 | `__len__` is the number of training rows plus the number of test rows. |
| `DataSets.DataSet.SetEpochsTrained` | saucie_utils.py:257-259 | The setter changes `epochsTrained` and nothing else. |
| `DataSets.DataSet.ShuffleData` | saucie_utils.py:303-308 | Data are reindexed by `perm`, and labels by the same `perm` when labelled. The multiset of rows and the multiset of (row, label) pairs are unchanged. Only `data` and `labels` may change, so no counter moves. |
| `DataSets.DataSet.NextBatch` | saucie_utils.py:310-337 | A batch larger than `numSamples` fails and changes nothing. Otherwise exactly `batchSize` rows are returned, plus labels cut at the same positions when labelled. The rows are `TakeBatch(old order, new order, old index, batchSize)`, and the counters become `Advance(old counters)`. The order is reshuffled by `perm` only when the batch wraps and shuffling is on. `0 <= index <= numSamples` is preserved. |
| `Sampling.Advance` | saucie_utils.py:312-335 | The index stays within `[0, n]`. Every call adds exactly `batchSize` to the rows consumed, `epochs * n + index`. Reachability is preserved: after any wrap the index is positive. |
| `Sampling.TakeBatch` | saucie_utils.py:313-334 | The batch has `batchSize` rows. Row i is row `start + i` of the current order while that exists. After that, row i is row `start + i - n` of the next epoch's order. |
| `Sampling.TakeBatchPairs` | saucie_utils.py:316-333 | Data and label batches are cut at the same positions, so zipping the two batches gives the batch of the zipped rows. |
| `Sampling.Run` | saucie_utils.py:310-337 | Consecutive calls without reshuffling return `Sum(sizes)` rows. The index stays within `[0, n]`. The rows consumed grow by `Sum(sizes)`, and reachability is kept. |
| `Sampling.BatchIsWindow` | saucie_utils.py:313-334 | Without a reshuffle, one batch is the window of the cyclic row stream that starts at the number of rows already consumed. |
| `Sampling.RunIsCycle` | saucie_utils.py:313-335 | Without a reshuffle, any sequence of calls returns the cyclic stream of rows from the current position. This holds across epoch boundaries. |
| `Sampling.CursorFromConsumed` | saucie_utils.py:313-335 | Among reachable counters, the number of rows consumed determines both the index and the epoch count. |
| `Sampling.OneEpochInOrder` | saucie_utils.py:313-334 | Take k calls of size b with `b * k == n`, from a fresh data set that does not shuffle. They return rows 0..n-1 in order, each once. Afterwards the index is n and the epoch count is still 0. |
| `Sampling.ExactFitDoesNotWrap` | saucie_utils.py:313-334 | A batch ending exactly at n does not wrap. It leaves the index at n and the epoch count unchanged. |
| `Sampling.WrapAfterExactFit` | saucie_utils.py:313-329 | The next call of positive size does wrap. Its tail is empty, its rows are the head of the new order, and the epoch count rises by one. The counters become (batchSize, epochs + 1, 1). |
| `Sampling.WraparoundExample` | saucie_utils.py:310-337 | Ten rows, batches of four, no shuffle, from the start of an epoch (a fresh data set starts at epoch 0). The first two calls return rows 0-3 and 4-7 and leave the index at 8. The third call returns the tail rows 8, 9 followed by the head rows 0, 1, and leaves the counters at (2, epochs + 1, 1). |
| `Permutations.Range` | saucie_utils.py:304 | `np.arange(n)` has n entries, and entry i is i. |
| `Permutations.PermutationBounds` | saucie_utils.py:304-305 | A shuffled `arange(n)` has n entries, each below n. |
| `Permutations.Permute` | saucie_utils.py:306 | Fancy indexing by a permutation keeps the number of rows. |
| `Permutations.PermutePreservesMultiset` | saucie_utils.py:303-308 | Reindexing by a permutation keeps the multiset of rows: no row is lost or duplicated. |
| `Permutations.PermuteZip` | saucie_utils.py:306-308 | Permuting data and labels with one vector is the same as permuting the (row, label) pairs. |
| `Permutations.PermutePreservesPairs` | saucie_utils.py:303-308 | After the shuffle, the multiset of (row, label) pairs is the one before it. |
| `Permutations.RangeIsPermutation` | saucie_utils.py:304-305 | `arange(n)` itself is a permutation, so a shuffle result always exists. |
| `Binarization.Binarize` | saucie_utils.py:80-102 | An empty `acts` fails, because `np.vstack` fails on an empty set. Otherwise there is one label per point, equal to `Labels(binarized patterns, unique, scaled bin_min)`. The reported excluded count is the number of -1 labels. |
| `Binarization.MinGroupSize` | saucie_utils.py:81-82 | An integer `bin_min` and a float outside (0, 1) are kept. A float in (0, 1) becomes a threshold in `[0, n)`. For n > 0, the rescaled value is 0 exactly when `bin_min` was a falsy 0 or 0.0. |
| `Binarization.Binarized` | saucie_utils.py:84 | One pattern per point and one entry per activation. An entry is set exactly when the activation exceeds `thresh`. |
| `Binarization.LabelGroups` | saucie_utils.py:86-98 | The labelling loop over `unique[1..]` produces exactly `Labels(pats, unique, minSize)`. `excluded` is the number of -1 labels. |
| `Binarization.LabelGroup` | saucie_utils.py:92-98 | One loop pass for group k >= 1 extends the correct labelling from groups below k to groups up to k. The number of -1 labels grows by exactly the `excludedHere` it reports. |
| `Binarization.GroupMembers` | saucie_utils.py:93 | `subs` is the increasing list of the points whose pattern equals `row`. |
| `Binarization.Assign` | saucie_utils.py:95-98 | `new_labels[subs] = v` changes exactly the positions in `subs`. The count of v grows by `len(subs)`. |
| `Binarization.IndexOf` | saucie_utils.py:92 | Gives the first position of a pattern in the enumeration. |
| `Binarization.Matches` | saucie_utils.py:93 | Lists every point with pattern p, and only those, in increasing order. |
| `Binarization.LabelsInRange` | saucie_utils.py:86-98 | Every label is -1 or lies in `[0, num_clusters)`. |
| `Binarization.SingleGroupAllZero` | saucie_utils.py:87-90 | With at most one distinct pattern, every label is 0. |
| `Binarization.FirstGroupKeepsZero` | saucie_utils.py:87-92 | The points of the first enumerated pattern keep label 0, even when the group is small. |
| `Binarization.GroupLabelled` | saucie_utils.py:92-98 | Points of `unique[k]` with k >= 1 get k, or -1 when `bin_min` is non-zero and the group has fewer points. |
| `Binarization.LabelsIdentifyGroups` | saucie_utils.py:92-98 | Points with the same pattern get the same label. A label other than -1 is shared exactly by the points of one pattern. |
| `Binarization.ZeroMinExcludesNothing` | saucie_utils.py:94 | A falsy `bin_min` of 0 gives no -1 labels. |
| `Binarization.FractionalMin` | saucie_utils.py:81-82 | A float `bin_min` f in (0, 1) is scaled by the number of points. A later group is excluded exactly when it holds less than the fraction f of all points. |

## Left out

- `DataSet.load` / `save`, `load_dataset_from_csv`, `load_dataset_from_mat` and `load_dataset`: file I/O through numpy, pandas, scipy and glob, plus the train/test split from sklearn.
- The normalisation in `load_dataset` and `rnaseq_inverse_transform`: floating-point numerics (`arcsinh`, min-max scaling, percentile clipping, PCA) and sklearn internals.
- `activation_mutual_info`: pairwise distances, histograms, k-means and mutual information are floating-point and sklearn work.
- The TensorFlow losses, penalties, `lrelu` and the scope decorators: graph construction.
- `make_dict_str` (string formatting) and `SparseLayerConfig` (a configuration record with formatting and a fieldwise equality).
- The `print` diagnostics of `binarize`, and with them `print_pct`. The excluded-point total that they print is returned as `Labelling.excluded`.
- The randomness of `np.random.shuffle`: the permutation is a parameter. Shuffles are not shown to be uniform.
- `DataSets.DataSet.NextBatch`: negative batch sizes are not modelled, because the size is a `nat`. Python would slice with negative bounds there.
- The returned batch is a value. A caller that writes into a returned numpy slice would write through to `_data`; that aliasing is not modelled.
- Arbitrary extra keyword attributes stored by `__init__` are not modelled. `_test_data` is always supplied. An absent `_labels` or `_test_labels` is stored as the empty sequence.
- Activations are reals and labels are integers. numpy stores labels as floats, but only their values are compared here. The threshold comparison and the rescaling of `bin_min` are exact; floating-point rounding is not modelled (see the `Binarization` lines below).
- `type(bin_min) == float` is decided by the `BinMin` constructor the caller picks. A numpy float scalar, which fails that test in Python, is not distinguished.
- `Binarization.MinGroupSize`: computes `n * bin_min` in exact reals. Python computes it as a double, and the rounded product can differ. With 100 points and `bin_min = 0.07`, Python gets 7.000000000000001 and the model gets 7.0.
- `Binarization.FractionalMin`: "excluded exactly when the group holds less than the fraction f of all points" holds for the exact product only. In Python, with 100 points and `bin_min = 0.07`, a later group of 7 points is excluded (7 < 7.000000000000001). The model keeps it (7 < 7.0 is false).
- `Binarization.Binarize`: its labels use the exact threshold from `MinGroupSize`. It therefore differs from Python on groups whose size equals the exact product while the double product is slightly larger, as in the 100 / 0.07 / 7 case above.
- `DataSets.NewDataSet`: the failure of the `'_data' in data_dict` assertion is not modelled. `data` is a required parameter, so it is always present.
- `DataSets.DataSet.SetEpochsTrained`: takes a `nat`, while the Python setter stores any value, negative or non-integer ones included.
