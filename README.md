# Continuous-time RNN controller: genome decoding and mask generation

This project models, in Dafny, the genome-to-controller machinery of the
`ContinuousTimeRNN` brain of the Canonical_ES neuroevolution repository. A brain has
three weight groups: V (neurons × inputs), W (neurons × neurons) and T (outputs ×
neurons). A *brain state* is a dictionary of three boolean masks, `v_mask`, `w_mask`
and `t_mask`. The masks fix where each group has non-zero weights. An *individual*
(genome) is a flat vector of reals. It is cut into three consecutive spans, one per
group. Each span fills the data array of a compressed sparse row (CSR) matrix whose
structure is the mask.

The model has two modules.

- `SparseStructure` (`sparse_structure.dfy`) covers masks, `count_nonzero` (`Count`)
  and the row-major order of a CSR matrix's stored values. That order is the list of
  True coordinates (`Positions`) together with the slot of a coordinate (`Rank`). It
  also covers the dense matrix a mask plus a data array stand for (`Weights`). The
  lemmas prove that `Positions` and `Rank` are inverse to each other, so that "the
  k-th True entry in row-major order holds the k-th stored value".
- `ContinuousTimeRnn` (`continuous_time_rnn.dfy`) covers:
  - the configuration record, with the source's defaults;
  - the brain-state dictionary and its packing and unpacking;
  - parameter accounting;
  - mask generation;
  - genome decoding;
  - the controller class, with its hidden state `x`.

Each core part keeps the form it has in the source:
- The controller is a class. It has `config`, `V`, `W`, `T` and a reassigned
  `x: seq<real>`.
- Each CSR matrix is a class whose `data` array is overwritten in place, the way
  `data[:] = ...` does it.
- The diagonal-forcing loop writes into a 2-D array.
- `get_individual_size` accumulates over the dictionary's values in a loop.
- The dictionary packing, the accounting and the decoding rule are functions.

Exceptions of the source are `Failure` values of a `Result` type:
- `RuntimeError` for an unknown mask type is `UnknownMaskType`.
- numpy's `ValueError` for a negative dimension is `NegativeDimension`.
- The `AssertionError` of the diagonal check is `NonSquareDiagonal`.
- `KeyError` on the brain-state dictionary is `MissingKey`.
- numpy's `ValueError` when a genome span cannot fill a data array is `BroadcastMismatch`.

The process-wide random source is a parameter, `rng: nat -> real`. It is the
sequence of doubles the generator will produce. A second parameter, `pos`, says how
many of them have been used. `np.random.rand(n, m)` takes the next `n * m` draws in
row-major order.

In two places the code does less than its names suggest, and the model follows the
code:

- The branch name `dense` and the flag `keep_main_diagonal` suggest a mask that
  `_generate_mask` returns, but it always returns a fresh thresholded draw. The
  `dense` branch's all-True mask and the forced diagonal are computed and then
  discarded. The
  `random` branch draws twice, and the first draw is discarded. The model returns
  the discarded mask only as a ghost out-parameter, `discarded`, so that its
  contract can say what was thrown away. All the branch's checks still run.
- The genome length is not validated. Elements past the three spans are ignored
  (`DecodeIgnoresTail`). A short genome truncates a span by Python slicing. numpy
  then broadcasts a one-element span over all of its matrix's slots, and refuses
  any other length (`SliceAssign`). What happens when the genome ends inside V's,
  W's or T's span is stated by `ShortGenome`, `GenomeEndsInW` and `GenomeEndsInT`.

## Model

| member | source | states |
|---|---|---|
| `SparseStructure.Count` | brains/continuous_time_rnn.py:31-33 | `np.count_nonzero` of a mask: every row's own count of True entries is at most the whole count; it is the data-array length in `Positions`, `Weights` and the decoding spans |
| `SparseStructure.Positions` | brains/continuous_time_rnn.py:35-37 | the row-major list of a mask's True coordinates, the order of a CSR matrix's stored values, has exactly count_nonzero(mask) entries, one per stored value |
| `SparseStructure.Weights` | brains/continuous_time_rnn.py:35-41 | the dense matrix a CSR matrix with a mask's structure and a data array stands for has the mask's shape; `WeightAt` and `StoredValueAt` state its entries |
| `SparseStructure.Rank` | brains/continuous_time_rnn.py:35-37 | the CSR slot of a True entry is below the number of stored values, count_nonzero(mask) |
| `SparseStructure.PositionAtRank` | brains/continuous_time_rnn.py:35-37 | every True entry (i, j) appears in the row-major list of True entries at position Rank(i, j) |
| `SparseStructure.PositionsAt` | brains/continuous_time_rnn.py:35-37 | conversely, the k-th entry of that list is a True entry whose slot is k |
| `SparseStructure.StoredValueAt` | brains/continuous_time_rnn.py:39-41 | the k-th True entry in row-major order holds the k-th value of the data array |
| `SparseStructure.WeightAt` | brains/continuous_time_rnn.py:35-41 | a False entry of the mask has weight zero; a True entry's weight is the data value in its slot |
| `SparseStructure.CountFull` | brains/continuous_time_rnn.py:143-145 | a dense rows × cols mask has rows * cols free parameters |
| `SparseStructure.FullWeightAt` | brains/continuous_time_rnn.py:35-41 | in a dense mask with cols columns, the weight at (i, j) is stored value i * cols + j |
| `SparseStructure.CountNone` | brains/continuous_time_rnn.py:143-145 | a mask without True entries has no free parameters |
| `ContinuousTimeRnn.GetBrainStateFromMasks` | brains/continuous_time_rnn.py:123-125 | the packed brain state has exactly the keys v_mask, w_mask and t_mask |
| `ContinuousTimeRnn.GetMasksFromBrainState` | brains/continuous_time_rnn.py:114-121 | unpacking succeeds exactly when all three keys are present, and repacking the result gives the brain state minus its other keys |
| `ContinuousTimeRnn.BrainStateRoundTrip` | brains/continuous_time_rnn.py:114-125 | packing and then unpacking gives back the three masks; an unpackable brain state is rebuilt from its masks exactly when it has no other keys |
| `ContinuousTimeRnn.GetFreeParameterUsage` | brains/continuous_time_rnn.py:138-147 | the usage is the ordered dictionary V, W, T of the three masks' nonzero counts; a missing key is a failure |
| `ContinuousTimeRnn.TotalOfThree` | brains/continuous_time_rnn.py:133-134 | summing a three-entry dictionary's values gives the sum of the three of them |
| `ContinuousTimeRnn.GetIndividualSize` | brains/continuous_time_rnn.py:127-136 | the loop's result is the sum of the usage dictionary's values, which is count(v_mask) + count(w_mask) + count(t_mask); it fails exactly when a mask key is missing |
| `ContinuousTimeRnn.IndividualSizeIsDecodedLength` | brains/continuous_time_rnn.py:31-41 | a genome of the reported individual size decodes, and its three spans together are the whole genome |
| `ContinuousTimeRnn.DrawMask` | brains/continuous_time_rnn.py:84 | `np.random.rand(n, m) < density` from a given draw position is an n × m mask; `DrawMaskIsDrawn` states its entries |
| `ContinuousTimeRnn.AllTrue` | brains/continuous_time_rnn.py:86 | `np.ones((n, m), dtype=bool)` is an n × m mask that is True everywhere |
| `ContinuousTimeRnn.MaskCheck` | brains/continuous_time_rnn.py:83-91 | mask generation raises nothing exactly when the mask type is random or dense, both dimensions are non-negative and a kept diagonal has a square mask; the unknown type is reported first, then a negative dimension, then the non-square diagonal |
| `ContinuousTimeRnn.DrawMaskIsDrawn` | brains/continuous_time_rnn.py:95 | `np.random.rand(n, m) < density` is an n × m mask whose entry (i, j) is True exactly when draw i·m + j is below the density |
| `ContinuousTimeRnn.ExtremeDensities` | brains/continuous_time_rnn.py:84 | with draws in [0, 1), a density of at least 1.0 gives an all-True mask and a density of at most 0.0 gives a mask with no True entry |
| `ContinuousTimeRnn.KeepMainDiagonal` | brains/continuous_time_rnn.py:90-93 | the loop sets every diagonal entry of a square mask to True and leaves every other entry as it was |
| `ContinuousTimeRnn.GenerateMask` | brains/continuous_time_rnn.py:80-95 | fails exactly for an unknown mask type, a negative dimension, or a kept diagonal on a non-square mask, in that order. On success it returns an n × m mask with entry (i, j) True iff the final draw (i, j) is below the density; the draw position advances by 2·n·m for random and n·m for dense. The discarded mask is the dense or first-draw mask with the diagonal forced |
| `ContinuousTimeRnn.GenerateBrainState` | brains/continuous_time_rnn.py:69-78 | succeeds exactly when none of the three masks fails, and reports the first failure in the order V, W, T. On success the dictionary has the keys v_mask, w_mask and t_mask; the masks are neurons × inputs, neurons × neurons and outputs × neurons, drawn in that order from consecutive positions of the random source |
| `ContinuousTimeRnn.PySlice` | brains/continuous_time_rnn.py:39-41 | a Python slice has min(hi, len) - min(lo, len) elements: it is the exact subsequence when it lies within the genome, the rest of the genome from lo on when it runs past the end, and empty when it starts past the end |
| `ContinuousTimeRnn.PySliceAt` | brains/continuous_time_rnn.py:39-41 | element k of a slice from lo is element lo + k of the genome |
| `ContinuousTimeRnn.SliceAssign` | brains/continuous_time_rnn.py:39-41 | `data[:] = values` succeeds exactly for an equal-length or one-element list; it copies the list or broadcasts the single element, and otherwise fails with a broadcast mismatch |
| `ContinuousTimeRnn.DecodeGenome` | brains/continuous_time_rnn.py:31-41 | on success each data array has exactly count(mask) values |
| `ContinuousTimeRnn.AssignSpans` | brains/continuous_time_rnn.py:39-41 | the three slice assignments in the order V, W, T: on success each data array has exactly count(mask) values |
| `ContinuousTimeRnn.DecodeSpans` | brains/continuous_time_rnn.py:39-41 | a long enough genome decodes into the spans [0, v), [v, v+w) and [v+w, v+w+t); the spans concatenated are the genome's prefix of that length |
| `ContinuousTimeRnn.DecodeIgnoresTail` | brains/continuous_time_rnn.py:41 | appending elements to a long enough genome changes no matrix |
| `ContinuousTimeRnn.DecodedVAt` | brains/continuous_time_rnn.py:39 | the k-th True entry of v_mask in row-major order holds individual[k] |
| `ContinuousTimeRnn.DecodedWAt` | brains/continuous_time_rnn.py:40 | the k-th True entry of w_mask in row-major order holds individual[count(v_mask) + k] |
| `ContinuousTimeRnn.DecodedTAt` | brains/continuous_time_rnn.py:41 | the k-th True entry of t_mask in row-major order holds individual[count(v_mask) + count(w_mask) + k] |
| `ContinuousTimeRnn.SpanWeightAt` | brains/continuous_time_rnn.py:39-41 | a matrix filled from the genome span at an offset holds individual[offset + k] at its k-th True entry |
| `ContinuousTimeRnn.ShortGenome` | brains/continuous_time_rnn.py:39-41 | a genome shorter than V's span fails unless it has exactly one element. A one-element genome is broadcast over all of V, and then decodes exactly when W and T have no free parameters |
| `ContinuousTimeRnn.GenomeEndsInW` | brains/continuous_time_rnn.py:39-41 | a genome that ends inside W's span fills V; the rest of it fails to fill W unless it is one element, which is broadcast over W; T's span is then empty and decoding goes through exactly when T has no free parameters |
| `ContinuousTimeRnn.GenomeEndsInT` | brains/continuous_time_rnn.py:39-41 | a genome that ends inside T's span fills V and W from their spans; the rest of it fails to fill T unless it is one element, which is broadcast over T |
| `ContinuousTimeRnn.DenseTwoNeuronDecode` | brains/continuous_time_rnn.py:31-41 | with dense masks for two neurons, one input and one output, an eight-element genome splits 2 + 4 + 2 |
| `ContinuousTimeRnn.DenseTwoNeuronWeights` | brains/continuous_time_rnn.py:35-41 | in that example, V = [[a], [b]], W = [[c, d], [e, f]] and T = [[g, h]] |
| `ContinuousTimeRnn.Zeros` | brains/continuous_time_rnn.py:44 | `np.zeros(n)` has length n and every entry 0.0 |
| `ContinuousTimeRnn.SparseMatrix.FromMask` | brains/continuous_time_rnn.py:35-37 | `csr_matrix(mask, dtype=float)` has the mask as its structure and a fresh data array of count(mask) slots, each 1.0 |
| `ContinuousTimeRnn.SparseMatrix.AssignData` | brains/continuous_time_rnn.py:39-41 | the in-place slice assignment leaves the data array equal to SliceAssign's result, or unchanged when numpy refuses |
| `ContinuousTimeRnn.NewWeights` | brains/continuous_time_rnn.py:35-41 | builds a fresh CSR matrix for a mask and fills it from a span; it fails exactly when SliceAssign fails |
| `ContinuousTimeRnn.DecodeMatrices` | brains/continuous_time_rnn.py:31-41 | fills V, W and T in that order from fresh arrays; it fails exactly when DecodeGenome fails, and on success the data arrays are DecodeGenome's values with the masks as their structure |
| `ContinuousTimeRnn.Construction` | brains/continuous_time_rnn.py:23-44 | construction succeeds exactly when the three mask keys are present, the genome decodes and the neuron count is non-negative; a missing key is reported before a refused span, and on success the result is the masks and their decoded data |
| `ContinuousTimeRnn.ContinuousTimeRNN.Init` | brains/continuous_time_rnn.py:43-44 | the new controller keeps config, V, W and T as given, and its x is the zero vector of length number_neurons |
| `ContinuousTimeRnn.ContinuousTimeRNN.Create` | brains/continuous_time_rnn.py:23-44 | construction fails exactly as Construction does: a missing key, then a span numpy refuses, then a negative neuron count. On success V, W and T have the masks as their structure and the decoded values as their data, their dense matrices are Weights(mask, values), and x is the zero vector |
| `ContinuousTimeRnn.ContinuousTimeRNN.Reset` | brains/continuous_time_rnn.py:66-67 | from any valid state, x becomes the zero vector of length number_neurons; V, W, T and the configuration are unchanged |

## Left out

- `step` (brains/continuous_time_rnn.py:46-64) is not modelled. It uses float
  arithmetic, `np.tanh`, sparse matrix-vector products, the Euler update and
  `np.clip`, whose result for the default inverted bounds (min 1.0 > max -1.0) is
  numpy's behaviour. Because `step` is left out, the hidden state is modelled only at
  construction and at reset.
- `save_brain_state` and `load_brain_state` (brains/continuous_time_rnn.py:97-112)
  are file I/O through `np.savez` and `np.load` and are not modelled. They only pack
  and unpack the dictionary, which is modelled.
- `ContinuousTimeRNNCfg(**configuration)` (brains/continuous_time_rnn.py:6-18, 25, 72)
  is modelled only as the `Config` datatype with the source's defaults. attrs keyword
  unpacking and its errors for missing or unknown fields are not modelled.
- The random number generator's own algorithm is not modelled. Its output is the
  parameter `rng`, and draws are reals rather than doubles.
- Masks are boolean. `count_nonzero` of a non-boolean array loaded from a file is not
  modelled.
- A mask with zero rows is the empty sequence. Its column count, which numpy keeps,
  has no effect on any count or slot.
- Python run with `-O` skips the diagonal assertion. The model always runs it.
- visualization.py is orchestration glue (JSON and file loading, the environment
  loop, rendering, sleeping, printing) and is not part of this model.
- ContinuousTimeRnn.GenerateBrainState: does not say where the random source's
  position ends after a failure, because no caller continues past the exception.
