/**
 * `predict_structure`: one inference per (seed, featurised example) pair,
 * the pairs formed by `zip`, so in seed order and as many as the shorter
 * of the two sequences.
 */
module Predict {
  import opened Records

  /**
   * The numerical collaborators: featurisation of a fold input for the given
   * bucket sizes (the chemical component dictionary comes from the input's
   * user definitions), and the model run on one example with one seed's
   * random key followed by the extraction of one structure per sample for
   * the named target. Their computation is not part of this model.
   */
  datatype Numerics = Numerics(
    featurise: (FoldInput, seq<int>) -> seq<Batch>,
    infer: (Batch, int, string) -> seq<InferenceResult>)

  function Min(a: nat, b: nat): nat {
    if a < b then a else b
  }

  /** The per-seed result of pairing seed `seed` with example `example`. */
  function ResultFor(numerics: Numerics, foldInput: FoldInput, seed: int, example: Batch): ResultsForSeed {
    ResultsForSeed(seed, numerics.infer(example, seed, foldInput.name), foldInput)
  }

  /** `results` are what `predict_structure` gives: one per (seed, featurised example) pair, in seed order. */
  predicate PredictionOf(numerics: Numerics, foldInput: FoldInput, buckets: seq<int>, results: seq<ResultsForSeed>) {
    var examples := numerics.featurise(foldInput, buckets);
    && |results| == Min(|foldInput.rngSeeds|, |examples|)
    && forall i :: 0 <= i < |results| ==> results[i] == ResultFor(numerics, foldInput, foldInput.rngSeeds[i], examples[i])
  }

  method PredictStructure(foldInput: FoldInput, numerics: Numerics, buckets: seq<int>) returns (allInferenceResults: seq<ResultsForSeed>)
    ensures var examples := numerics.featurise(foldInput, buckets);
            |allInferenceResults| == Min(|foldInput.rngSeeds|, |examples|)
    ensures var examples := numerics.featurise(foldInput, buckets);
            forall i :: 0 <= i < |allInferenceResults| ==>
              allInferenceResults[i] == ResultFor(numerics, foldInput, foldInput.rngSeeds[i], examples[i])
    ensures forall i :: 0 <= i < |allInferenceResults| ==>
              allInferenceResults[i].seed == foldInput.rngSeeds[i] && allInferenceResults[i].fullFoldInput == foldInput
  {
    var featurisedExamples := numerics.featurise(foldInput, buckets);
    var n := Min(|foldInput.rngSeeds|, |featurisedExamples|);
    allInferenceResults := [];
    var i := 0;
    while i < n
      invariant 0 <= i <= n && |allInferenceResults| == i
      invariant forall k :: 0 <= k < i ==>
                  allInferenceResults[k] == ResultFor(numerics, foldInput, foldInput.rngSeeds[k], featurisedExamples[k])
    {
      var seed, example := foldInput.rngSeeds[i], featurisedExamples[i];
      var inferenceResults := numerics.infer(example, seed, foldInput.name);
      allInferenceResults := allInferenceResults + [ResultsForSeed(seed, inferenceResults, foldInput)];
      i := i + 1;
    }
  }
}
