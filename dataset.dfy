/**
 * `DataSet` (saucie_utils.py): the training matrix and its labels, the test
 * split, and the epoch / batch counters of the minibatch sampler. Matrices
 * are sequences of rows of an arbitrary row type `T`, labels of type `L`;
 * the sampler never looks inside a row.
 *
 * `np.random.shuffle` is replaced by an index vector `perm` passed in by the
 * caller: whatever permutation of [0, n) the random source would produce.
 */
module DataSets {

  import opened Wrappers
  import opened Permutations
  import opened Sampling

  /** The `AssertionError`s that `__init__` and `next_batch` raise. */
  datatype DataSetError =
    | MissingLabels     // labelled, but no `_labels` given
    | RowCountMismatch  // `_labels` has a different number of rows than `_data`
    | BatchTooLarge     // `batch_size` exceeds the number of training rows

  /** What `next_batch` returns: `data_batch` alone, or the tuple
      `(data_batch, labels_batch)` for a labelled data set. */
  datatype Batch<T, L> = Unlabeled(rows: seq<T>) | Labeled(rows: seq<T>, labels: seq<L>)

  class DataSet<T, L> {
    var data: seq<T>          // `_data`, in the current epoch's row order
    var labels: seq<L>        // `_labels`; [] when absent
    var testData: seq<T>      // `_test_data`
    var testLabels: seq<L>    // `_test_labels`; [] when absent
    const labeled: bool       // `_labeled`
    const shuffle: bool       // `_shuffle`
    const numSamples: nat     // `_num_samples`
    var indexInEpoch: nat     // `_index_in_epoch`
    var epochsTrained: nat    // `_epochs_trained`
    var batchNumber: nat      // `_batch_number`

    /** The object invariant: the counters describe a position inside the
        current row order, and labels are aligned with the rows. The index
        may equal `numSamples`: a batch that exactly fills the epoch leaves
        it there, and only the next call wraps. */
    ghost predicate Valid()
      reads this
    {
      && |data| == numSamples
      && indexInEpoch <= numSamples
      && (labeled ==> |labels| == numSamples)
    }

    /** The sampler's counters as one value. */
    function Position(): Cursor
      reads this
    {
      Cursor(indexInEpoch, epochsTrained, batchNumber)
    }

    /** `__init__` on arguments that pass its assertions: counters start at
        zero and, when shuffling, data and labels are permuted once. */
    constructor (shuffle: bool, labeled: bool, data: seq<T>, labels: seq<L>,
                 testData: seq<T>, testLabels: seq<L>, perm: seq<nat>)
      requires labeled ==> |labels| == |data|
      requires shuffle ==> IsPermutation(perm, |data|)
      ensures Valid()
      ensures this.shuffle == shuffle && this.labeled == labeled
      ensures numSamples == |data| && Position() == Initial
      ensures this.data == if shuffle then Permute(data, perm) else data
      ensures this.labels == if shuffle && labeled then Permute(labels, perm) else labels
      ensures this.testData == testData && this.testLabels == testLabels
    {
      this.shuffle := shuffle;
      this.labeled := labeled;
      this.data := data;
      this.labels := labels;
      this.testData := testData;
      this.testLabels := testLabels;
      numSamples := |data|;
      indexInEpoch := 0;
      epochsTrained := 0;
      batchNumber := 0;
      new;
      if shuffle {
        ShuffleData(perm);
      }
    }

    /** `__len__`: training and test rows together. */
    function Len(): (r: nat)
      reads this
      ensures Valid() ==> r == numSamples + |testData|
    {
      |data| + |testData|
    }

    /** The `epochs_trained` setter; the other properties are the fields. */
    method SetEpochsTrained(epochs: nat)
      modifies this`epochsTrained
      ensures epochsTrained == epochs
    {
      epochsTrained := epochs;
    }

    /** `_shuffle_data`: reorder data and, when labelled, labels by one
        index vector. Rows keep their labels and no counter moves. */
    method ShuffleData(perm: seq<nat>)
      requires Valid() && IsPermutation(perm, numSamples)
      modifies this`data, this`labels
      ensures Valid()
      ensures data == Permute(old(data), perm)
      ensures labels == if labeled then Permute(old(labels), perm) else old(labels)
      ensures multiset(data) == multiset(old(data))
      ensures labeled ==> multiset(Zip(data, labels)) == multiset(Zip(old(data), old(labels)))
    {
      PermutePreservesMultiset(data, perm);
      if labeled {
        PermutePreservesPairs(data, labels, perm);
      }
      data := Permute(data, perm);
      if labeled {
        labels := Permute(labels, perm);
      }
    }

    /** `next_batch`: exactly `batchSize` rows (and their labels), taken from
        the current epoch and, when it runs out, from the head of the next
        one after an optional reshuffle. Too large a batch fails before
        anything changes. */
    method NextBatch(batchSize: nat, perm: seq<nat>) returns (r: Result<Batch<T, L>, DataSetError>)
      requires Valid()
      requires shuffle ==> IsPermutation(perm, numSamples)
      modifies this`data, this`labels, this`indexInEpoch, this`epochsTrained, this`batchNumber
      ensures Valid()
      ensures r.Failure? <==> batchSize > numSamples
      ensures r.Failure? ==> r.error == BatchTooLarge && Position() == old(Position())
                             && data == old(data) && labels == old(labels)
      ensures r.Success? ==>
                var wrapped := Wraps(numSamples, old(indexInEpoch), batchSize);
                && Position() == Advance(old(Position()), numSamples, batchSize)
                && data == (if wrapped && shuffle then Permute(old(data), perm) else old(data))
                && labels == (if wrapped && shuffle && labeled then Permute(old(labels), perm) else old(labels))
                && (r.value.Labeled? <==> labeled)
                && |r.value.rows| == batchSize
                && r.value.rows == TakeBatch(old(data), data, old(indexInEpoch), batchSize)
                && (labeled ==> r.value.labels == TakeBatch(old(labels), labels, old(indexInEpoch), batchSize))
    {
      var n := numSamples;
      if batchSize > n {
        return Failure(BatchTooLarge);
      }
      var start := indexInEpoch;
      var rows: seq<T>;
      var labs: seq<L> := [];
      if start + batchSize > n {
        epochsTrained := epochsTrained + 1;
        batchNumber := 0;
        rows := data[start..];
        if labeled {
          labs := labels[start..];
        }
        var remaining := batchSize - (n - start);
        if shuffle {
          ShuffleData(perm);
        }
        rows := rows + data[..remaining];
        if labeled {
          labs := labs + labels[..remaining];
        }
        indexInEpoch := remaining;
      } else {
        rows := data[start..start + batchSize];
        if labeled {
          labs := labels[start..start + batchSize];
        }
        indexInEpoch := start + batchSize;
      }
      batchNumber := batchNumber + 1;
      r := Success(if labeled then Labeled(rows, labs) else Unlabeled(rows));
    }
  }

  /** `DataSet.__init__` with its assertions: a labelled data set needs
      labels, one per training row. `_data` itself is a parameter, so it is
      always present. */
  method NewDataSet<T, L>(shuffle: bool, labeled: bool, data: seq<T>, labels: Option<seq<L>>,
                          testData: seq<T>, testLabels: seq<L>, perm: seq<nat>)
    returns (r: Result<DataSet<T, L>, DataSetError>)
    requires shuffle ==> IsPermutation(perm, |data|)
    ensures labeled && labels.None? ==> r.Failure? && r.error == MissingLabels
    ensures labeled && labels.Some? && |labels.value| != |data| ==>
              r.Failure? && r.error == RowCountMismatch
    ensures r.Success? <==> !labeled || (labels.Some? && |labels.value| == |data|)
    ensures r.Success? ==>
              var ds := r.value;
              var given := if labels.Some? then labels.value else [];
              && fresh(ds) && ds.Valid()
              && ds.shuffle == shuffle && ds.labeled == labeled
              && ds.numSamples == |data| && ds.Position() == Initial
              && ds.data == (if shuffle then Permute(data, perm) else data)
              && ds.labels == (if shuffle && labeled then Permute(given, perm) else given)
              && ds.testData == testData && ds.testLabels == testLabels
  {
    if labeled && labels.None? {
      return Failure(MissingLabels);
    }
    if labeled && |labels.value| != |data| {
      return Failure(RowCountMismatch);
    }
    var given := if labels.Some? then labels.value else [];
    var ds := new DataSet(shuffle, labeled, data, given, testData, testLabels, perm);
    r := Success(ds);
  }
}
