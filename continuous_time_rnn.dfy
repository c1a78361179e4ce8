/** The genome-to-controller machinery of brains/continuous_time_rnn.py: mask
    generation from a random source, the brain-state dictionary, parameter
    accounting, decoding a flat genome into the three sparse weight matrices V, W
    and T, and the hidden state's lifecycle. */
module ContinuousTimeRnn {
  import opened SparseStructure

  /** The exceptions the modelled code raises. */
  datatype Error =
    | UnknownMaskType(maskType: string)        // RuntimeError for a mask type other than "random" or "dense"
    | NegativeDimension                        // numpy's ValueError: negative dimensions are not allowed
    | NonSquareDiagonal                        // AssertionError: the main diagonal is kept only for a square mask
    | MissingKey(key: string)                  // KeyError looking up a brain-state entry
    | BroadcastMismatch(size: nat, given: nat) // numpy's ValueError: `given` values cannot fill `size` slots

  datatype Option<T> = None | Some(value: T)

  datatype Result<T> = Success(value: T) | Failure(error: Error) {
    predicate IsFailure() { Failure? }
    function PropagateFailure<U>(): Result<U> requires Failure? { Failure(error) }
    function Extract(): T requires Success? { value }
  }

  /** The controller's configuration record with the source's defaults. */
  datatype Config = Config(
    brainType: string,
    deltaT: real,
    numberNeurons: int,
    vMask: string := "dense",
    vMaskDensity: real := 1.0,
    wMask: string := "dense",
    wMaskDensity: real := 1.0,
    tMask: string := "dense",
    tMaskDensity: real := 1.0,
    clippingRangeMin: real := 1.0,
    clippingRangeMax: real := -1.0)

  /* ---------------------------------------------------------------------------
     Brain state: a dictionary from "v_mask", "w_mask" and "t_mask" to masks.
     --------------------------------------------------------------------------- */

  type BrainState = map<string, Mask>

  datatype Masks = Masks(v: Mask, w: Mask, t: Mask)

  /** The three keys of a brain state. */
  predicate HasMaskKeys(brainState: BrainState) {
    "v_mask" in brainState && "w_mask" in brainState && "t_mask" in brainState
  }

  function GetBrainStateFromMasks(vMask: Mask, wMask: Mask, tMask: Mask): (brainState: BrainState)
    ensures brainState.Keys == {"v_mask", "w_mask", "t_mask"}
  {
    map["v_mask" := vMask, "w_mask" := wMask, "t_mask" := tMask]
  }

  /** Looks the masks up in the order v, w, t; the first missing key is a KeyError. */
  function GetMasksFromBrainState(brainState: BrainState): (r: Result<Masks>)
    ensures r.Success? <==> HasMaskKeys(brainState)
    ensures r.Success? ==> GetBrainStateFromMasks(r.value.v, r.value.w, r.value.t) ==
                           brainState - (brainState.Keys - {"v_mask", "w_mask", "t_mask"})
  {
    if "v_mask" !in brainState then Failure(MissingKey("v_mask"))
    else if "w_mask" !in brainState then Failure(MissingKey("w_mask"))
    else if "t_mask" !in brainState then Failure(MissingKey("t_mask"))
    else Success(Masks(brainState["v_mask"], brainState["w_mask"], brainState["t_mask"]))
  }

  /** Packing three masks and unpacking them again gives back the same masks, and a
      brain state that unpacks is rebuilt from its masks exactly when it has no
      other keys. */
  lemma BrainStateRoundTrip(vMask: Mask, wMask: Mask, tMask: Mask, brainState: BrainState)
    ensures GetMasksFromBrainState(GetBrainStateFromMasks(vMask, wMask, tMask)) == Success(Masks(vMask, wMask, tMask))
    ensures GetMasksFromBrainState(brainState).Success? ==>
              (brainState.Keys == {"v_mask", "w_mask", "t_mask"} <==>
               var m := GetMasksFromBrainState(brainState).value;
               GetBrainStateFromMasks(m.v, m.w, m.t) == brainState)
  {
  }

  /* ---------------------------------------------------------------------------
     Parameter accounting.
     --------------------------------------------------------------------------- */

  /** The per-group counts of free parameters, as the insertion-ordered dictionary
      {'V': .., 'W': .., 'T': ..} of the source. */
  function GetFreeParameterUsage(brainState: BrainState): (r: Result<seq<(string, nat)>>)
    ensures r.Success? <==> HasMaskKeys(brainState)
    ensures r.Success? ==> |r.value| == 3
    ensures r.Success? ==> r.value[0] == ("V", Count(brainState["v_mask"]))
    ensures r.Success? ==> r.value[1] == ("W", Count(brainState["w_mask"]))
    ensures r.Success? ==> r.value[2] == ("T", Count(brainState["t_mask"]))
  {
    var masks :- GetMasksFromBrainState(brainState);
    Success([("V", Count(masks.v)), ("W", Count(masks.w)), ("T", Count(masks.t))])
  }

  /** The sum of a dictionary's values, in iteration order. */
  function Total(usage: seq<(string, nat)>): nat {
    if usage == [] then 0 else Total(usage[..|usage| - 1]) + usage[|usage| - 1].1
  }

  lemma TotalOfThree(usage: seq<(string, nat)>)
    requires |usage| == 3
    ensures Total(usage) == usage[0].1 + usage[1].1 + usage[2].1
  {
    var two, one := usage[..2], usage[..1];
    assert usage[..|usage| - 1] == two;
    assert two[..|two| - 1] == one;
    assert one[..|one| - 1] == [];
    assert Total(one) == usage[0].1;
    assert Total(two) == Total(one) + usage[1].1;
  }

  /** The genome length a brain state asks for: the loop over the values of the
      free-parameter dictionary. */
  method GetIndividualSize(brainState: BrainState) returns (r: Result<nat>)
    ensures r.Success? <==> HasMaskKeys(brainState)
    ensures r.Failure? ==> r == Failure(GetMasksFromBrainState(brainState).error)
    ensures r.Success? ==> r.value == Total(GetFreeParameterUsage(brainState).value)
    ensures r.Success? ==>
              r.value == Count(brainState["v_mask"]) + Count(brainState["w_mask"]) + Count(brainState["t_mask"])
  {
    var usage :- GetFreeParameterUsage(brainState);
    var individualSize := 0;
    for i := 0 to |usage|
      invariant individualSize == Total(usage[..i])
    {
      assert usage[..i + 1][..i] == usage[..i];
      individualSize := individualSize + usage[i].1;
    }
    assert usage[..|usage|] == usage;
    TotalOfThree(usage);
    return Success(individualSize);
  }

  /* ---------------------------------------------------------------------------
     Mask generation. The process-wide random source is the sequence `rng` of
     the doubles it will produce; `pos` of them are already used.
     np.random.rand(n, m) takes the next n * m of them in row-major order.
     --------------------------------------------------------------------------- */

  predicate IsKnownMaskType(maskType: string) {
    maskType == "random" || maskType == "dense"
  }

  /** `np.random.rand(n, m) < density`, the draws starting at index `start`: an
      n by m mask. */
  function DrawMask(rng: nat -> real, start: nat, n: nat, m: nat, density: real): (mask: Mask)
    ensures IsShape(mask, n, m)
  {
    seq(n, i requires 0 <= i < n => seq(m, j requires 0 <= j < m => rng(start + i * m + j) < density))
  }

  /** The mask is n by m and its entry (i, j) is True exactly when the draw for
      (i, j), taken from index `start` on in row-major order, is below `density`. */
  ghost predicate IsDrawnMask(mask: Mask, rng: nat -> real, start: nat, n: nat, m: nat, density: real) {
    IsShape(mask, n, m) &&
    forall i, j :: 0 <= i < n && 0 <= j < m ==> (mask[i][j] <==> rng(start + i * m + j) < density)
  }

  /** The error mask generation raises for these arguments, if any, checked in the
      source's order. */
  function MaskCheck(maskType: string, n: int, m: int, keepMainDiagonal: bool): (e: Option<Error>)
    ensures e.None? <==> IsKnownMaskType(maskType) && n >= 0 && m >= 0 && (keepMainDiagonal ==> n == m)
    ensures e == Some(UnknownMaskType(maskType)) <==> !IsKnownMaskType(maskType)
    ensures e == Some(NegativeDimension) <==> IsKnownMaskType(maskType) && (n < 0 || m < 0)
  {
    if !IsKnownMaskType(maskType) then Some(UnknownMaskType(maskType))
    else if n < 0 || m < 0 then Some(NegativeDimension)
    else if keepMainDiagonal && n != m then Some(NonSquareDiagonal)
    else None
  }

  /** Draws taken by the type-specific branch before the final draw. */
  function BranchDraws(maskType: string, n: nat, m: nat): nat {
    if maskType == "random" then n * m else 0
  }

  /** `np.ones((n, m), dtype=bool)`: an n by m mask, True everywhere. */
  function AllTrue(n: nat, m: nat): (mask: Mask)
    ensures IsShape(mask, n, m) && IsFull(mask)
  {
    seq(n, _ => seq(m, _ => true))
  }

  lemma DrawMaskIsDrawn(rng: nat -> real, start: nat, n: nat, m: nat, density: real)
    ensures IsDrawnMask(DrawMask(rng, start, n, m, density), rng, start, n, m, density)
  {
  }

  /** The entries of a 2-D array as a mask. */
  ghost function Contents(mask: array2<bool>): (c: Mask)
    reads mask
    ensures IsShape(c, mask.Length0, mask.Length1)
    ensures forall i, j :: 0 <= i < mask.Length0 && 0 <= j < mask.Length1 ==> c[i][j] == mask[i, j]
  {
    seq(mask.Length0, i requires 0 <= i < mask.Length0 reads mask =>
      seq(mask.Length1, j requires 0 <= j < mask.Length1 reads mask => mask[i, j]))
  }

  /** The loop `mask[i, i] = True` over a square mask. */
  method KeepMainDiagonal(mask: array2<bool>)
    requires mask.Length0 == mask.Length1
    modifies mask
    ensures forall a, b :: 0 <= a < mask.Length0 && 0 <= b < mask.Length1 ==>
              mask[a, b] == (a == b || old(mask[a, b]))
  {
    for i := 0 to mask.Length0
      invariant forall a, b :: 0 <= a < mask.Length0 && 0 <= b < mask.Length1 ==>
                  mask[a, b] == ((a == b && a < i) || old(mask[a, b]))
    {
      mask[i, i] := true;
    }
  }

  lemma DrawAtLeastOne(rng: nat -> real, start: nat, n: nat, m: nat, density: real)
    requires forall k :: 0.0 <= rng(k) < 1.0
    requires density >= 1.0
    ensures DrawMask(rng, start, n, m, density) == AllTrue(n, m)
  {
    var mask, full := DrawMask(rng, start, n, m, density), AllTrue(n, m);
    forall i | 0 <= i < n
      ensures mask[i] == full[i]
    {
      assert forall j :: 0 <= j < m ==> mask[i][j] == full[i][j];
    }
    assert |mask| == |full|;
  }

  lemma DrawAtMostZero(rng: nat -> real, start: nat, n: nat, m: nat, density: real)
    requires forall k :: 0.0 <= rng(k) < 1.0
    requires density <= 0.0
    ensures Count(DrawMask(rng, start, n, m, density)) == 0
  {
    CountNone(DrawMask(rng, start, n, m, density));
  }

  /** The draws of np.random.rand lie in [0, 1), so a density of at least 1.0 (the
      configuration's default) draws a mask that is True everywhere and a density
      of at most 0.0 one that is False everywhere. */
  lemma ExtremeDensities(rng: nat -> real, start: nat, n: nat, m: nat, density: real)
    requires forall k :: 0.0 <= rng(k) < 1.0
    ensures density >= 1.0 ==> DrawMask(rng, start, n, m, density) == AllTrue(n, m)
    ensures density <= 0.0 ==> Count(DrawMask(rng, start, n, m, density)) == 0
  {
    if density >= 1.0 {
      DrawAtLeastOne(rng, start, n, m, density);
    }
    if density <= 0.0 {
      DrawAtMostZero(rng, start, n, m, density);
    }
  }

  /** Mask generation as written: the branch for the mask type and the diagonal
      loop build a mask, `discarded`, and then a fresh draw is returned instead.
      `next` is how many draws of the random source are used afterwards. */
  method GenerateMask(maskType: string, n: int, m: int, maskDensity: real, keepMainDiagonal: bool,
                      rng: nat -> real, pos: nat)
    returns (r: Result<Mask>, next: nat, ghost discarded: Mask)
    ensures r.Failure? <==> MaskCheck(maskType, n, m, keepMainDiagonal).Some?
    ensures r.Failure? ==> r.error == MaskCheck(maskType, n, m, keepMainDiagonal).value
    ensures r.Failure? && r.error != NonSquareDiagonal ==> next == pos
    ensures r.Failure? && r.error == NonSquareDiagonal ==> next == pos + BranchDraws(maskType, n, m)
    ensures r.Success? ==> n >= 0 && m >= 0 && next == pos + BranchDraws(maskType, n, m) + n * m
    ensures r.Success? ==> IsDrawnMask(r.value, rng, pos + BranchDraws(maskType, n, m), n, m, maskDensity)
    ensures r.Success? ==> IsShape(discarded, n, m)
    ensures r.Success? ==> forall i, j :: 0 <= i < n && 0 <= j < m ==>
              (discarded[i][j] <==>
                 (keepMainDiagonal && i == j) || maskType == "dense" || DrawMask(rng, pos, n, m, maskDensity)[i][j])
  {
    discarded := [];
    var branch: Mask;
    if maskType == "random" {
      if n < 0 || m < 0 {
        return Failure(NegativeDimension), pos, discarded;
      }
      branch := DrawMask(rng, pos, n, m, maskDensity);
      next := pos + n * m;
    } else if maskType == "dense" {
      if n < 0 || m < 0 {
        return Failure(NegativeDimension), pos, discarded;
      }
      branch := AllTrue(n, m);
      next := pos;
    } else {
      return Failure(UnknownMaskType(maskType)), pos, discarded;
    }
    var mask := new bool[n, m]((i, j) requires 0 <= i < n && 0 <= j < m => branch[i][j]);

    if keepMainDiagonal {
      if n != m {
        return Failure(NonSquareDiagonal), next, discarded;
      }
      KeepMainDiagonal(mask);
    }
    discarded := Contents(mask);
    r := Success(DrawMask(rng, next, n, m, maskDensity));
    DrawMaskIsDrawn(rng, next, n, m, maskDensity);
    next := next + n * m;
  }

  /** The three masks of a new brain state: V is neurons x inputs, W is neurons x
      neurons and the only one that asks to keep its main diagonal, T is outputs x
      neurons. The masks are drawn in that order from one random source. */
  method GenerateBrainState(numberInputs: int, numberOutputs: int, config: Config, rng: nat -> real, pos: nat)
    returns (r: Result<BrainState>, next: nat)
    ensures var vCheck := MaskCheck(config.vMask, config.numberNeurons, numberInputs, false);
            var wCheck := MaskCheck(config.wMask, config.numberNeurons, config.numberNeurons, true);
            var tCheck := MaskCheck(config.tMask, numberOutputs, config.numberNeurons, false);
            && (r.Success? <==> vCheck.None? && wCheck.None? && tCheck.None?)
            && (vCheck.Some? ==> r == Failure(vCheck.value))
            && (vCheck.None? && wCheck.Some? ==> r == Failure(wCheck.value))
            && (vCheck.None? && wCheck.None? && tCheck.Some? ==> r == Failure(tCheck.value))
    ensures r.Success? ==> config.numberNeurons >= 0 && numberInputs >= 0 && numberOutputs >= 0
    ensures r.Success? ==>
              var nn, ni, no := config.numberNeurons, numberInputs, numberOutputs;
              var vStart := pos + BranchDraws(config.vMask, nn, ni);
              var wStart := vStart + nn * ni + BranchDraws(config.wMask, nn, nn);
              var tStart := wStart + nn * nn + BranchDraws(config.tMask, no, nn);
              && r.value.Keys == {"v_mask", "w_mask", "t_mask"}
              && IsDrawnMask(r.value["v_mask"], rng, vStart, nn, ni, config.vMaskDensity)
              && IsDrawnMask(r.value["w_mask"], rng, wStart, nn, nn, config.wMaskDensity)
              && IsDrawnMask(r.value["t_mask"], rng, tStart, no, nn, config.tMaskDensity)
              && next == tStart + no * nn
  {
    ghost var unused: Mask;
    var vMask, wMask, tMask;
    vMask, next, unused := GenerateMask(config.vMask, config.numberNeurons, numberInputs, config.vMaskDensity, false, rng, pos);
    if vMask.Failure? {
      return Failure(vMask.error), next;
    }
    wMask, next, unused := GenerateMask(config.wMask, config.numberNeurons, config.numberNeurons, config.wMaskDensity, true, rng, next);
    if wMask.Failure? {
      return Failure(wMask.error), next;
    }
    tMask, next, unused := GenerateMask(config.tMask, numberOutputs, config.numberNeurons, config.tMaskDensity, false, rng, next);
    if tMask.Failure? {
      return Failure(tMask.error), next;
    }
    r := Success(GetBrainStateFromMasks(vMask.value, wMask.value, tMask.value));
  }

  /* ---------------------------------------------------------------------------
     Genome decoding.
     --------------------------------------------------------------------------- */

  function Min(a: nat, b: nat): nat { if a <= b then a else b }

  /** Python's `s[lo:hi]` for 0 <= lo <= hi: bounds past the end are clamped, so
      the slice holds the elements from lo on that exist, up to hi. */
  function PySlice(s: seq<real>, lo: nat, hi: nat): (r: seq<real>)
    requires lo <= hi
    ensures |r| == Min(hi, |s|) - Min(lo, |s|)
    ensures hi <= |s| ==> r == s[lo..hi]
    ensures lo < |s| < hi ==> r == s[lo..]
    ensures |s| <= lo ==> r == []
  {
    s[Min(lo, |s|)..Min(hi, |s|)]
  }

  /** Element by element, a slice holds the elements from lo on. */
  lemma PySliceAt(s: seq<real>, lo: nat, hi: nat, k: nat)
    requires lo <= hi && k < |PySlice(s, lo, hi)|
    ensures lo + k < Min(hi, |s|) && PySlice(s, lo, hi)[k] == s[lo + k]
  {
  }

  /** numpy's `data[:] = values` on a data array of `size` slots: an equal-length
      list is copied, a one-element list is broadcast to every slot, any other
      length is a ValueError. */
  function SliceAssign(size: nat, values: seq<real>): (r: Result<seq<real>>)
    ensures r.Success? <==> |values| == size || |values| == 1
    ensures r.Failure? ==> r.error == BroadcastMismatch(size, |values|)
    ensures r.Success? ==> |r.value| == size
    ensures r.Success? && |values| == size ==> r.value == values
    ensures r.Success? && |values| != size ==> forall k :: 0 <= k < size ==> r.value[k] == values[0]
  {
    if |values| == size then Success(values)
    else if |values| == 1 then Success(seq(size, _ => values[0]))
    else Failure(BroadcastMismatch(size, |values|))
  }

  /** The data arrays of V, W and T after decoding. */
  datatype Stored = Stored(v: seq<real>, w: seq<real>, t: seq<real>)

  /** The genome split into three spans of Count(v), Count(w) and Count(t)
      elements, in that order, each assigned to the data array of its matrix. */
  function DecodeGenome(individual: seq<real>, masks: Masks): (r: Result<Stored>)
    ensures r.Success? ==> |r.value.v| == Count(masks.v) && |r.value.w| == Count(masks.w) && |r.value.t| == Count(masks.t)
  {
    var vSize, wSize, tSize := Count(masks.v), Count(masks.w), Count(masks.t);
    AssignSpans(masks, PySlice(individual, 0, vSize), PySlice(individual, vSize, vSize + wSize),
                PySlice(individual, vSize + wSize, vSize + wSize + tSize))
  }

  /** The three slice assignments of the data arrays, in the order V, W, T. */
  function AssignSpans(masks: Masks, vSpan: seq<real>, wSpan: seq<real>, tSpan: seq<real>): (r: Result<Stored>)
    ensures r.Success? ==> |r.value.v| == Count(masks.v) && |r.value.w| == Count(masks.w) && |r.value.t| == Count(masks.t)
  {
    var v :- SliceAssign(Count(masks.v), vSpan);
    var w :- SliceAssign(Count(masks.w), wSpan);
    var t :- SliceAssign(Count(masks.t), tSpan);
    Success(Stored(v, w, t))
  }

  /** The genome length the masks call for. */
  function GenomeLength(masks: Masks): nat {
    Count(masks.v) + Count(masks.w) + Count(masks.t)
  }

  /** A genome at least as long as the masks call for decodes, its three spans are
      contiguous, disjoint and in the order V, W, T, and a genome of exactly that
      length is entirely used. */
  lemma DecodeSpans(individual: seq<real>, masks: Masks)
    requires |individual| >= GenomeLength(masks)
    ensures var vSize, wSize := Count(masks.v), Count(masks.w);
            DecodeGenome(individual, masks) ==
              Success(Stored(individual[..vSize], individual[vSize..vSize + wSize],
                             individual[vSize + wSize..GenomeLength(masks)]))
    ensures DecodeGenome(individual, masks).Success? &&
            var s := DecodeGenome(individual, masks).value;
            s.v + s.w + s.t == individual[..GenomeLength(masks)]
  {
    var vSize, wSize := Count(masks.v), Count(masks.w);
    var n := GenomeLength(masks);
    assert individual[..vSize] + individual[vSize..vSize + wSize] + individual[vSize + wSize..n] == individual[..n];
  }

  /** Genome elements past the length the masks call for affect nothing. */
  lemma DecodeIgnoresTail(individual: seq<real>, extra: seq<real>, masks: Masks)
    requires |individual| >= GenomeLength(masks)
    ensures DecodeGenome(individual + extra, masks) == DecodeGenome(individual, masks)
  {
    var vSize, wSize := Count(masks.v), Count(masks.w);
    var n := GenomeLength(masks);
    var whole := individual + extra;
    DecodeSpans(individual, masks);
    DecodeSpans(whole, masks);
    assert whole[..vSize] == individual[..vSize];
    assert whole[vSize..vSize + wSize] == individual[vSize..vSize + wSize];
    assert whole[vSize + wSize..n] == individual[vSize + wSize..n];
  }

  /** The k-th True entry of a mask whose data array is the genome span starting
      at `offset` holds individual[offset + k]. */
  lemma SpanWeightAt(mask: Mask, individual: seq<real>, offset: nat, k: nat)
    requires offset + Count(mask) <= |individual|
    requires k < Count(mask)
    ensures |Positions(mask)| == Count(mask)
    ensures var (i, j) := Positions(mask)[k];
            i < |mask| && j < |mask[i]| && mask[i][j] &&
            Weights(mask, individual[offset..offset + Count(mask)])[i][j] == individual[offset + k]
  {
    StoredValueAt(mask, individual[offset..offset + Count(mask)], k);
  }

  /** After decoding a long enough genome the k-th True entry of V in row-major
      order holds individual[k]. */
  lemma DecodedVAt(individual: seq<real>, masks: Masks, k: nat)
    requires |individual| >= GenomeLength(masks)
    requires k < Count(masks.v)
    ensures DecodeGenome(individual, masks).Success?
    ensures |Positions(masks.v)| == Count(masks.v)
    ensures var (i, j) := Positions(masks.v)[k];
            i < |masks.v| && j < |masks.v[i]| && masks.v[i][j] &&
            Weights(masks.v, DecodeGenome(individual, masks).value.v)[i][j] == individual[k]
  {
    DecodeSpans(individual, masks);
    SpanWeightAt(masks.v, individual, 0, k);
    assert individual[..Count(masks.v)] == individual[0..Count(masks.v)];
  }

  /** After decoding a long enough genome the k-th True entry of W in row-major
      order holds individual[Count(v) + k]. */
  lemma DecodedWAt(individual: seq<real>, masks: Masks, k: nat)
    requires |individual| >= GenomeLength(masks)
    requires k < Count(masks.w)
    ensures DecodeGenome(individual, masks).Success?
    ensures |Positions(masks.w)| == Count(masks.w)
    ensures var (i, j) := Positions(masks.w)[k];
            i < |masks.w| && j < |masks.w[i]| && masks.w[i][j] &&
            Weights(masks.w, DecodeGenome(individual, masks).value.w)[i][j] == individual[Count(masks.v) + k]
  {
    DecodeSpans(individual, masks);
    SpanWeightAt(masks.w, individual, Count(masks.v), k);
  }

  /** After decoding a long enough genome the k-th True entry of T in row-major
      order holds individual[Count(v) + Count(w) + k]. */
  lemma DecodedTAt(individual: seq<real>, masks: Masks, k: nat)
    requires |individual| >= GenomeLength(masks)
    requires k < Count(masks.t)
    ensures DecodeGenome(individual, masks).Success?
    ensures |Positions(masks.t)| == Count(masks.t)
    ensures var (i, j) := Positions(masks.t)[k];
            i < |masks.t| && j < |masks.t[i]| && masks.t[i][j] &&
            Weights(masks.t, DecodeGenome(individual, masks).value.t)[i][j] ==
              individual[Count(masks.v) + Count(masks.w) + k]
  {
    var offset := Count(masks.v) + Count(masks.w);
    DecodeSpans(individual, masks);
    assert DecodeGenome(individual, masks).value.t == individual[offset..offset + Count(masks.t)];
    SpanWeightAt(masks.t, individual, offset, k);
  }

  /** A genome shorter than the V span: numpy broadcasts a single element over
      all of V, and then decoding goes through only when W and T have no free
      parameters; a genome of any other short length is refused. */
  lemma ShortGenome(individual: seq<real>, masks: Masks)
    requires |individual| < Count(masks.v)
    ensures |individual| != 1 ==> DecodeGenome(individual, masks) == Failure(BroadcastMismatch(Count(masks.v), |individual|))
    ensures |individual| == 1 ==>
              (DecodeGenome(individual, masks).Success? <==> Count(masks.w) == 0 && Count(masks.t) == 0)
    ensures |individual| == 1 && DecodeGenome(individual, masks).Success? ==>
              DecodeGenome(individual, masks).value.v == seq(Count(masks.v), _ => individual[0])
  {
    var vSize, wSize := Count(masks.v), Count(masks.w);
    assert PySlice(individual, 0, vSize) == individual;
    assert |PySlice(individual, vSize, vSize + wSize)| == 0;
    assert |PySlice(individual, vSize + wSize, vSize + wSize + Count(masks.t))| == 0;
  }

  /** A genome that ends inside W's span: V is filled, the rest of the genome is
      W's span, which numpy broadcasts only when it is a single element, and T's
      span is then empty, which fills T only when T has no free parameters. */
  lemma GenomeEndsInW(individual: seq<real>, masks: Masks)
    requires Count(masks.v) <= |individual| < Count(masks.v) + Count(masks.w)
    ensures var rest := |individual| - Count(masks.v);
            rest != 1 ==> DecodeGenome(individual, masks) == Failure(BroadcastMismatch(Count(masks.w), rest))
    ensures |individual| - Count(masks.v) == 1 ==>
              (DecodeGenome(individual, masks).Success? <==> Count(masks.t) == 0)
    ensures |individual| - Count(masks.v) == 1 && Count(masks.t) != 0 ==>
              DecodeGenome(individual, masks) == Failure(BroadcastMismatch(Count(masks.t), 0))
    ensures |individual| - Count(masks.v) == 1 && Count(masks.t) == 0 ==>
              var vSize := Count(masks.v);
              DecodeGenome(individual, masks) ==
                Success(Stored(individual[..vSize], seq(Count(masks.w), _ => individual[vSize]), []))
  {
    var vSize, wSize, tSize := Count(masks.v), Count(masks.w), Count(masks.t);
    assert PySlice(individual, 0, vSize) == individual[..vSize];
    assert PySlice(individual, vSize, vSize + wSize) == individual[vSize..];
    assert PySlice(individual, vSize + wSize, vSize + wSize + tSize) == [];
  }

  /** A genome that ends inside T's span: V and W are filled from their spans,
      and the rest of the genome, shorter than T's span, is broadcast over T only
      when it is a single element. */
  lemma GenomeEndsInT(individual: seq<real>, masks: Masks)
    requires Count(masks.v) + Count(masks.w) <= |individual| < GenomeLength(masks)
    ensures var rest := |individual| - Count(masks.v) - Count(masks.w);
            rest != 1 ==> DecodeGenome(individual, masks) == Failure(BroadcastMismatch(Count(masks.t), rest))
    ensures |individual| - Count(masks.v) - Count(masks.w) == 1 ==>
              var vSize, wSize := Count(masks.v), Count(masks.w);
              DecodeGenome(individual, masks) ==
                Success(Stored(individual[..vSize], individual[vSize..vSize + wSize],
                               seq(Count(masks.t), _ => individual[vSize + wSize])))
  {
    var vSize, wSize, tSize := Count(masks.v), Count(masks.w), Count(masks.t);
    assert PySlice(individual, 0, vSize) == individual[..vSize];
    assert PySlice(individual, vSize, vSize + wSize) == individual[vSize..vSize + wSize];
    assert PySlice(individual, vSize + wSize, vSize + wSize + tSize) == individual[vSize + wSize..];
  }

  /** The dense masks of a controller with two neurons, one input and one output. */
  function DenseTwoNeuronMasks(): Masks {
    Masks([[true], [true]], [[true, true], [true, true]], [[true, true]])
  }

  /** With those masks an eight-element genome is split 2 + 4 + 2. */
  lemma DenseTwoNeuronDecode(a: real, b: real, c: real, d: real, e: real, f: real, g: real, h: real)
    ensures GenomeLength(DenseTwoNeuronMasks()) == 8
    ensures DecodeGenome([a, b, c, d, e, f, g, h], DenseTwoNeuronMasks()) == Success(Stored([a, b], [c, d, e, f], [g, h]))
  {
    var masks := DenseTwoNeuronMasks();
    CountFull(masks.v, 1);
    CountFull(masks.w, 2);
    CountFull(masks.t, 2);
    var genome := [a, b, c, d, e, f, g, h];
    DecodeSpans(genome, masks);
    assert genome[..2] == [a, b] && genome[2..6] == [c, d, e, f] && genome[6..8] == [g, h];
  }

  lemma DenseTwoNeuronV(a: real, b: real)
    ensures Count(DenseTwoNeuronMasks().v) == 2
    ensures Weights(DenseTwoNeuronMasks().v, [a, b]) == [[a], [b]]
  {
    var v := DenseTwoNeuronMasks().v;
    CountFull(v, 1);
    FullWeightAt(v, 1, [a, b], 0, 0);
    FullWeightAt(v, 1, [a, b], 1, 0);
    var wv := Weights(v, [a, b]);
    assert wv[0] == [a] && wv[1] == [b];
  }

  lemma DenseTwoNeuronW(c: real, d: real, e: real, f: real)
    ensures Count(DenseTwoNeuronMasks().w) == 4
    ensures Weights(DenseTwoNeuronMasks().w, [c, d, e, f]) == [[c, d], [e, f]]
  {
    var w := DenseTwoNeuronMasks().w;
    CountFull(w, 2);
    FullWeightAt(w, 2, [c, d, e, f], 0, 0);
    FullWeightAt(w, 2, [c, d, e, f], 0, 1);
    FullWeightAt(w, 2, [c, d, e, f], 1, 0);
    FullWeightAt(w, 2, [c, d, e, f], 1, 1);
    var ww := Weights(w, [c, d, e, f]);
    assert ww[0] == [c, d] && ww[1] == [e, f];
  }

  lemma DenseTwoNeuronT(g: real, h: real)
    ensures Count(DenseTwoNeuronMasks().t) == 2
    ensures Weights(DenseTwoNeuronMasks().t, [g, h]) == [[g, h]]
  {
    var t := DenseTwoNeuronMasks().t;
    CountFull(t, 2);
    FullWeightAt(t, 2, [g, h], 0, 0);
    FullWeightAt(t, 2, [g, h], 0, 1);
    var wt := Weights(t, [g, h]);
    assert wt[0] == [g, h];
  }

  /** ... and each span fills its matrix row by row. */
  lemma DenseTwoNeuronWeights(a: real, b: real, c: real, d: real, e: real, f: real, g: real, h: real)
    ensures Count(DenseTwoNeuronMasks().v) == 2 && Count(DenseTwoNeuronMasks().w) == 4 && Count(DenseTwoNeuronMasks().t) == 2
    ensures Weights(DenseTwoNeuronMasks().v, [a, b]) == [[a], [b]]
    ensures Weights(DenseTwoNeuronMasks().w, [c, d, e, f]) == [[c, d], [e, f]]
    ensures Weights(DenseTwoNeuronMasks().t, [g, h]) == [[g, h]]
  {
    DenseTwoNeuronV(a, b);
    DenseTwoNeuronW(c, d, e, f);
    DenseTwoNeuronT(g, h);
  }

  /** The genome length the accounting reports is the length decoding consumes:
      a genome of that length decodes and every element of it lands in a matrix. */
  lemma IndividualSizeIsDecodedLength(brainState: BrainState, individual: seq<real>)
    requires HasMaskKeys(brainState)
    requires |individual| == Total(GetFreeParameterUsage(brainState).value)
    ensures DecodeGenome(individual, GetMasksFromBrainState(brainState).value).Success?
    ensures var s := DecodeGenome(individual, GetMasksFromBrainState(brainState).value).value;
            s.v + s.w + s.t == individual
  {
    var masks := GetMasksFromBrainState(brainState).value;
    TotalOfThree(GetFreeParameterUsage(brainState).value);
    DecodeSpans(individual, masks);
  }

  /** The hidden state at construction and after a reset. */
  function Zeros(n: nat): (x: seq<real>)
    ensures |x| == n && forall i :: 0 <= i < n ==> x[i] == 0.0
  {
    seq(n, _ => 0.0)
  }

  /** A CSR matrix whose structure is fixed by a mask: one data slot per True
      entry in row-major order. */
  class SparseMatrix {
    const pattern: Mask
    const data: array<real>

    ghost predicate Valid() {
      data.Length == Count(pattern)
    }

    /** The dense matrix this sparse matrix stands for. */
    ghost function Matrix(): seq<seq<real>>
      reads data
      requires Valid()
    {
      Weights(pattern, data[..])
    }

    /** `sparse.csr_matrix(mask, dtype=float)`: every True entry stores 1.0. */
    constructor FromMask(mask: Mask)
      ensures pattern == mask && Valid() && fresh(data)
      ensures forall k :: 0 <= k < data.Length ==> data[k] == 1.0
    {
      pattern := mask;
      data := new real[Count(mask)](_ => 1.0);
    }

    /** `data[:] = values`, in place; nothing is written when numpy refuses. */
    method AssignData(values: seq<real>) returns (ok: bool)
      requires Valid()
      modifies data
      ensures ok <==> SliceAssign(data.Length, values).Success?
      ensures ok ==> data[..] == SliceAssign(data.Length, values).value
      ensures !ok ==> data[..] == old(data[..])
    {
      if |values| != data.Length && |values| != 1 {
        return false;
      }
      for k := 0 to data.Length
        invariant forall p :: 0 <= p < k ==> data[p] == (if |values| == data.Length then values[p] else values[0])
      {
        data[k] := if |values| == data.Length then values[k] else values[0];
      }
      return true;
    }
  }

  /** A CSR matrix with the structure of `mask` whose data array is then set to
      `values`, the way the constructor fills each of V, W and T. */
  method NewWeights(mask: Mask, values: seq<real>) returns (r: Result<SparseMatrix>)
    ensures r.Failure? <==> SliceAssign(Count(mask), values).Failure?
    ensures r.Failure? ==> r.error == SliceAssign(Count(mask), values).error
    ensures r.Success? ==> fresh(r.value) && fresh(r.value.data) && r.value.Valid() && r.value.pattern == mask
    ensures r.Success? ==> r.value.data[..] == SliceAssign(Count(mask), values).value
  {
    var matrix := new SparseMatrix.FromMask(mask);
    var ok := matrix.AssignData(values);
    if !ok {
      return Failure(BroadcastMismatch(Count(mask), |values|));
    }
    return Success(matrix);
  }

  /** The three weight matrices filled from the genome, V first, then W, then T;
      the first span numpy refuses ends the decoding. */
  method DecodeMatrices(individual: seq<real>, masks: Masks)
    returns (r: Result<(SparseMatrix, SparseMatrix, SparseMatrix)>)
    ensures r.Failure? <==> DecodeGenome(individual, masks).Failure?
    ensures r.Failure? ==> r.error == DecodeGenome(individual, masks).error
    ensures r.Success? ==>
              var (v, w, t) := r.value;
              var stored := DecodeGenome(individual, masks).value;
              && fresh(v) && fresh(v.data) && fresh(w) && fresh(w.data) && fresh(t) && fresh(t.data)
              && v.Valid() && w.Valid() && t.Valid()
              && v.pattern == masks.v && w.pattern == masks.w && t.pattern == masks.t
              && v.data[..] == stored.v && w.data[..] == stored.w && t.data[..] == stored.t
  {
    var vSize, wSize, tSize := Count(masks.v), Count(masks.w), Count(masks.t);
    var vSpan := PySlice(individual, 0, vSize);
    var wSpan := PySlice(individual, vSize, vSize + wSize);
    var tSpan := PySlice(individual, vSize + wSize, vSize + wSize + tSize);
    assert DecodeGenome(individual, masks) == AssignSpans(masks, vSpan, wSpan, tSpan);
    var v :- NewWeights(masks.v, vSpan);
    var w :- NewWeights(masks.w, wSpan);
    var t :- NewWeights(masks.t, tSpan);
    return Success((v, w, t));
  }

  /** What construction yields, in the order the source does it: look up the masks,
      fill V, W and T from the genome, then allocate the zero hidden state (which
      numpy refuses for a negative number of neurons). */
  function Construction(individual: seq<real>, config: Config, brainState: BrainState): (r: Result<(Masks, Stored)>)
    ensures r.Success? <==>
              && HasMaskKeys(brainState)
              && DecodeGenome(individual, GetMasksFromBrainState(brainState).value).Success?
              && config.numberNeurons >= 0
    ensures !HasMaskKeys(brainState) ==> r == Failure(GetMasksFromBrainState(brainState).error)
    ensures HasMaskKeys(brainState) && DecodeGenome(individual, GetMasksFromBrainState(brainState).value).Failure? ==>
              r == Failure(DecodeGenome(individual, GetMasksFromBrainState(brainState).value).error)
    ensures r.Success? ==> r.value == (GetMasksFromBrainState(brainState).value,
                                       DecodeGenome(individual, GetMasksFromBrainState(brainState).value).value)
  {
    var masks :- GetMasksFromBrainState(brainState);
    var stored :- DecodeGenome(individual, masks);
    if config.numberNeurons < 0 then Failure(NegativeDimension) else Success((masks, stored))
  }

  /** The controller built from a genome, a configuration and a brain state. */
  class ContinuousTimeRNN {
    const config: Config
    const V: SparseMatrix
    const W: SparseMatrix
    const T: SparseMatrix
    var x: seq<real>

    ghost predicate Valid()
      reads this
    {
      config.numberNeurons >= 0 && V.Valid() && W.Valid() && T.Valid() &&
      |x| == config.numberNeurons
    }

    constructor Init(config: Config, V: SparseMatrix, W: SparseMatrix, T: SparseMatrix)
      requires config.numberNeurons >= 0 && V.Valid() && W.Valid() && T.Valid()
      ensures Valid()
      ensures this.config == config && this.V == V && this.W == W && this.T == T
      ensures x == Zeros(config.numberNeurons)
    {
      this.config := config;
      this.V, this.W, this.T := V, W, T;
      x := Zeros(config.numberNeurons);
    }

    /** Construction from a genome: the k-th True entry of each mask in row-major
        order receives the k-th element of that mask's span of the genome. */
    static method Create(individual: seq<real>, config: Config, brainState: BrainState)
      returns (r: Result<ContinuousTimeRNN>)
      ensures r.Failure? <==> Construction(individual, config, brainState).Failure?
      ensures r.Failure? ==> r.error == Construction(individual, config, brainState).error
      ensures r.Success? ==>
                var (masks, stored) := Construction(individual, config, brainState).value;
                var brain := r.value;
                && fresh(brain) && fresh(brain.V.data) && fresh(brain.W.data) && fresh(brain.T.data)
                && brain.Valid() && brain.config == config
                && brain.V.pattern == masks.v && brain.W.pattern == masks.w && brain.T.pattern == masks.t
                && brain.V.data[..] == stored.v && brain.W.data[..] == stored.w && brain.T.data[..] == stored.t
                && brain.V.Matrix() == Weights(masks.v, stored.v)
                && brain.W.Matrix() == Weights(masks.w, stored.w)
                && brain.T.Matrix() == Weights(masks.t, stored.t)
                && brain.x == Zeros(config.numberNeurons)
    {
      var masks :- GetMasksFromBrainState(brainState);
      var matrices :- DecodeMatrices(individual, masks);
      var (v, w, t) := matrices;
      if config.numberNeurons < 0 {
        return Failure(NegativeDimension);
      }
      var brain := new ContinuousTimeRNN.Init(config, v, w, t);
      return Success(brain);
    }

    /** Sets the hidden state back to zero; the weights and the configuration are
        left as they are. */
    method Reset()
      requires Valid()
      modifies this
      ensures Valid()
      ensures x == Zeros(config.numberNeurons)
      ensures V.data[..] == old(V.data[..]) && W.data[..] == old(W.data[..]) && T.data[..] == old(T.data[..])
      ensures V.Matrix() == old(V.Matrix()) && W.Matrix() == old(W.Matrix()) && T.Matrix() == old(T.Matrix())
    {
      x := Zeros(config.numberNeurons);
    }
  }
}
