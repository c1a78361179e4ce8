/** Boolean connectivity masks, their nonzero counts (numpy's count_nonzero) and
    the row-major order in which a compressed sparse row (CSR) matrix built from
    a mask stores one value per True entry: rows top to bottom, and within a row
    columns in ascending order. The CSR index arrays are represented here by the
    list of (row, column) coordinates they describe, `Positions`, and by the slot
    of one coordinate in that list, `Rank`. */
module SparseStructure {

  /** A 2-D boolean array as a sequence of rows. */
  type Mask = seq<seq<bool>>

  /** The mask has `rows` rows of `cols` entries each. */
  predicate IsShape(mask: Mask, rows: nat, cols: nat) {
    |mask| == rows && forall i :: 0 <= i < rows ==> |mask[i]| == cols
  }

  /** Number of True entries of one row: at most the row's length. */
  function CountRow(row: seq<bool>): (c: nat)
    ensures c <= |row|
  {
    if row == [] then 0 else CountRow(row[..|row| - 1]) + (if row[|row| - 1] then 1 else 0)
  }

  /** Number of True entries of a mask (count_nonzero): every row's own count is
      part of it. */
  function Count(mask: Mask): (c: nat)
    ensures forall i :: 0 <= i < |mask| ==> CountRow(mask[i]) <= c
  {
    if mask == [] then 0
    else
      var init := mask[..|mask| - 1];
      assert forall i :: 0 <= i < |init| ==> init[i] == mask[i];
      Count(init) + CountRow(mask[|mask| - 1])
  }

  /** Coordinates of the True entries of `row`, taken as row `i`, columns ascending:
      one per True entry of the row. */
  function RowPositions(i: nat, row: seq<bool>): (p: seq<(nat, nat)>)
    ensures |p| == CountRow(row)
  {
    if row == [] then []
    else RowPositions(i, row[..|row| - 1]) + (if row[|row| - 1] then [(i, |row| - 1)] else [])
  }

  /** Coordinates of the True entries of a mask in row-major order: the order of
      the stored values of a CSR matrix whose structure is the mask. There is one
      per True entry, so the CSR data array of a mask has Count(mask) slots. */
  function Positions(mask: Mask): (p: seq<(nat, nat)>)
    ensures |p| == Count(mask)
  {
    if mask == [] then []
    else Positions(mask[..|mask| - 1]) + RowPositions(|mask| - 1, mask[|mask| - 1])
  }

  /** The number of True entries strictly before (i, j) in row-major order, that is,
      the slot of the CSR data array that holds the weight at (i, j). A True entry's
      slot is a valid index of a data array of length Count(mask). */
  function Rank(mask: Mask, i: nat, j: nat): (k: nat)
    requires i < |mask| && j < |mask[i]|
    ensures k + (if mask[i][j] then 1 else 0) <= Count(mask)
  {
    CountRowPrefixBound(mask[i], j);
    CountPrefixBound(mask, i);
    Count(mask[..i]) + CountRow(mask[i][..j])
  }

  /** The dense matrix represented by a CSR matrix whose structure is `mask` and
      whose data array is `values`: the weight at a True entry is the value in
      that entry's slot, every other entry is zero. */
  function Weights(mask: Mask, values: seq<real>): (w: seq<seq<real>>)
    requires |values| == Count(mask)
    ensures |w| == |mask| && forall i :: 0 <= i < |w| ==> |w[i]| == |mask[i]|
  {
    seq(|mask|, i requires 0 <= i < |mask| =>
      seq(|mask[i]|, j requires 0 <= j < |mask[i]| =>
        if mask[i][j] then values[Rank(mask, i, j)] else 0.0))
  }

  lemma {:induction false} CountRowPrefixBound(row: seq<bool>, j: nat)
    requires j < |row|
    ensures CountRow(row[..j]) + (if row[j] then 1 else 0) <= CountRow(row)
  {
    var init := row[..|row| - 1];
    if j < |row| - 1 {
      assert init[..j] == row[..j];
      CountRowPrefixBound(init, j);
    } else {
      assert init == row[..j];
    }
  }

  lemma {:induction false} CountPrefixBound(mask: Mask, i: nat)
    requires i < |mask|
    ensures Count(mask[..i]) + CountRow(mask[i]) <= Count(mask)
  {
    var init := mask[..|mask| - 1];
    if i < |mask| - 1 {
      assert init[..i] == mask[..i];
      CountPrefixBound(init, i);
    } else {
      assert init == mask[..i];
    }
  }

  lemma {:induction false} RowPositionAtRank(i: nat, row: seq<bool>, j: nat)
    requires j < |row| && row[j]
    ensures CountRow(row[..j]) < |RowPositions(i, row)|
    ensures RowPositions(i, row)[CountRow(row[..j])] == (i, j)
  {
    var init := row[..|row| - 1];
    if j == |row| - 1 {
      assert init == row[..j];
    } else {
      assert init[..j] == row[..j];
      RowPositionAtRank(i, init, j);
    }
  }

  lemma {:induction false} RowPositionsAt(i: nat, row: seq<bool>, k: nat)
    requires k < |RowPositions(i, row)|
    ensures RowPositions(i, row)[k].0 == i
    ensures RowPositions(i, row)[k].1 < |row| && row[RowPositions(i, row)[k].1]
    ensures CountRow(row[..RowPositions(i, row)[k].1]) == k
  {
    var init := row[..|row| - 1];
    if k < |RowPositions(i, init)| {
      RowPositionsAt(i, init, k);
      var j := RowPositions(i, init)[k].1;
      assert init[..j] == row[..j];
    } else {
      assert row[..|row| - 1] == init;
    }
  }

  /** Every True entry (i, j) sits at slot Rank(mask, i, j) of the row-major list
      of True entries. */
  lemma {:induction false} PositionAtRank(mask: Mask, i: nat, j: nat)
    requires i < |mask| && j < |mask[i]| && mask[i][j]
    ensures Rank(mask, i, j) < |Positions(mask)|
    ensures Positions(mask)[Rank(mask, i, j)] == (i, j)
  {
    var init := mask[..|mask| - 1];
    if i == |mask| - 1 {
      assert init == mask[..i];
      RowPositionAtRank(i, mask[i], j);
    } else {
      assert init[..i] == mask[..i];
      assert init[i] == mask[i];
      PositionAtRank(init, i, j);
    }
  }

  /** Conversely, the k-th coordinate of the row-major list is a True entry whose
      slot is k. */
  lemma {:induction false} PositionsAt(mask: Mask, k: nat)
    requires k < |Positions(mask)|
    ensures Positions(mask)[k].0 < |mask|
    ensures Positions(mask)[k].1 < |mask[Positions(mask)[k].0]|
    ensures mask[Positions(mask)[k].0][Positions(mask)[k].1]
    ensures Rank(mask, Positions(mask)[k].0, Positions(mask)[k].1) == k
  {
    var init := mask[..|mask| - 1];
    var last := |mask| - 1;
    if k < |Positions(init)| {
      PositionsAt(init, k);
      var (i, j) := Positions(init)[k];
      assert init[..i] == mask[..i];
      assert init[i] == mask[i];
    } else {
      RowPositionsAt(last, mask[last], k - |Positions(init)|);
      assert init == mask[..last];
    }
  }

  /** The k-th True entry in row-major order holds the k-th stored value. */
  lemma StoredValueAt(mask: Mask, values: seq<real>, k: nat)
    requires |values| == Count(mask)
    requires k < Count(mask)
    ensures |Positions(mask)| == Count(mask)
    ensures Positions(mask)[k].0 < |mask|
    ensures Positions(mask)[k].1 < |mask[Positions(mask)[k].0]|
    ensures mask[Positions(mask)[k].0][Positions(mask)[k].1]
    ensures Weights(mask, values)[Positions(mask)[k].0][Positions(mask)[k].1] == values[k]
  {
    PositionsAt(mask, k);
  }

  /** Every True entry's weight is one of the stored values, every False entry's
      weight is zero: the stored values are all the weight matrix holds. */
  lemma WeightAt(mask: Mask, values: seq<real>, i: nat, j: nat)
    requires |values| == Count(mask)
    requires i < |mask| && j < |mask[i]|
    ensures |Positions(mask)| == Count(mask)
    ensures !mask[i][j] ==> Weights(mask, values)[i][j] == 0.0
    ensures mask[i][j] ==> Positions(mask)[Rank(mask, i, j)] == (i, j)
    ensures mask[i][j] ==> Weights(mask, values)[i][j] == values[Rank(mask, i, j)]
  {
    if mask[i][j] {
      PositionAtRank(mask, i, j);
    }
  }

  /** Every entry of the mask is True. */
  predicate IsFull(mask: Mask) {
    forall i, j :: 0 <= i < |mask| && 0 <= j < |mask[i]| ==> mask[i][j]
  }

  lemma {:induction false} CountRowFull(row: seq<bool>)
    requires forall j :: 0 <= j < |row| ==> row[j]
    ensures CountRow(row) == |row|
  {
    if row != [] {
      CountRowFull(row[..|row| - 1]);
    }
  }

  lemma {:induction false} CountFull(mask: Mask, cols: nat)
    requires IsShape(mask, |mask|, cols) && IsFull(mask)
    ensures Count(mask) == |mask| * cols
  {
    if mask != [] {
      CountFull(mask[..|mask| - 1], cols);
      CountRowFull(mask[|mask| - 1]);
    }
  }

  /** In a dense mask with `cols` columns the weight at (i, j) is stored value
      i * cols + j. */
  lemma FullWeightAt(mask: Mask, cols: nat, values: seq<real>, i: nat, j: nat)
    requires IsShape(mask, |mask|, cols) && IsFull(mask)
    requires |values| == Count(mask)
    requires i < |mask| && j < cols
    ensures Rank(mask, i, j) == i * cols + j
    ensures Weights(mask, values)[i][j] == values[i * cols + j]
  {
    var before := mask[..i];
    assert IsShape(before, i, cols) && IsFull(before);
    CountFull(before, cols);
    CountRowFull(mask[i][..j]);
  }

  lemma {:induction false} CountRowNone(row: seq<bool>)
    requires forall j :: 0 <= j < |row| ==> !row[j]
    ensures CountRow(row) == 0
  {
    if row != [] {
      CountRowNone(row[..|row| - 1]);
    }
  }

  /** A mask without True entries has no free parameters. */
  lemma {:induction false} CountNone(mask: Mask)
    requires forall i, j :: 0 <= i < |mask| && 0 <= j < |mask[i]| ==> !mask[i][j]
    ensures Count(mask) == 0
  {
    if mask != [] {
      CountNone(mask[..|mask| - 1]);
      CountRowNone(mask[|mask| - 1]);
    }
  }
}
