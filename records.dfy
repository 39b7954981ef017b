/**
 * The value objects the script passes around, and the observable effects
 * (writes to disk) it performs, recorded as events in a trace.
 */
module Records {
  import opened Common

  /** One molecular chain of a fold input; its contents are the input module's concern. */
  datatype Chain = Chain(id: string, sequence: string)

  /** A fold input: a named job with its chains, its random seeds and optional user chemical components. */
  datatype FoldInput = FoldInput(name: string, chains: seq<Chain>, rngSeeds: seq<int>, userCcd: Option<string>)

  /** One featurised example, as featurisation produces it; opaque here. */
  datatype Batch = Batch(features: seq<int>)

  /** One diffusion sample's output: its predicted structure (opaque) and the ranking score in its metadata. */
  datatype InferenceResult = InferenceResult(structure: string, rankingScore: real)

  /** `ResultsForSeed`: the samples produced for one seed and the fold input they came from. */
  datatype ResultsForSeed = ResultsForSeed(seed: int, inferenceResults: seq<InferenceResult>, fullFoldInput: FoldInput)

  /** The resolved database paths of the data pipeline's configuration, in flag order. */
  datatype PipelineConfig = PipelineConfig(databasePaths: seq<Path>)

  /** One line of `ranking_scores.csv` below its header `seed,sample,ranking_score`. */
  datatype RankingRow = RankingRow(seed: int, sample: nat, score: real)

  /** A write the script performs, in the order it performs them. */
  datatype Event =
    | CreateDir(dir: Path)                                         // os.makedirs(dir, exist_ok=True)
    | WriteInputJson(path: Path, input: FoldInput)                 // the `<name>_data.json` copy of the input
    | WriteSampleOutput(dir: Path, result: InferenceResult)        // post_processing.write_output for one sample
    | WriteBestOutput(dir: Path, result: InferenceResult, name: string)  // the same, with the output terms of use
    | WriteRankingCsv(path: Path, rows: seq<RankingRow>)           // ranking_scores.csv
}
