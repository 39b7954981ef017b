/**
 * `process_fold_input`: checks one fold input, picks its output directory,
 * optionally runs the data pipeline, writes the input JSON, and optionally
 * runs inference and writes the outputs.
 */
module Process {
  import opened Common
  import opened Fs
  import opened Records
  import opened Ranking
  import opened Predict

  /** The collaborators a fold input passes through; their behaviour is not part of this model. */
  datatype Collaborators = Collaborators(
    sanitisedName: FoldInput -> string,                 // FoldInput.sanitised_name()
    runPipeline: (PipelineConfig, FoldInput) -> FoldInput,  // pipeline.DataPipeline(config).process
    numerics: Numerics)

  /** What `process_fold_input` returns: the processed input when inference is skipped, the per-seed results otherwise. */
  datatype Output = Processed(input: FoldInput) | Predicted(results: seq<ResultsForSeed>)

  /**
   * The output directory: the given one, or the given one with `_` and the
   * timestamp appended when it exists and lists anything. Only the given
   * directory is inspected; `os.listdir` raises on an existing
   * non-directory.
   */
  function OutputDirFor(fs: FileSystem, outputDir: Path, timestamp: string): (r: Result<Path>)
    ensures r.Err? <==> Exists(fs, outputDir) && fs.entries[outputDir].File?
    ensures r.Err? ==> r.error == NotADirectory(outputDir)
    ensures r.Ok? ==> r.value == outputDir || r.value == outputDir + "_" + timestamp
  {
    if Exists(fs, outputDir) then
      match ListDir(fs, outputDir)
        case Err(e) => Err(e)
        case Ok(children) => if children != {} then Ok(outputDir + "_" + timestamp) else Ok(outputDir)
    else Ok(outputDir)
  }

  /** The input after the data pipeline when it is configured, unchanged otherwise. */
  function PipelineOutput(env: Collaborators, config: Option<PipelineConfig>, foldInput: FoldInput): FoldInput {
    if config.Some? then env.runPipeline(config.value, foldInput) else foldInput
  }

  function JsonFileName(env: Collaborators, input: FoldInput): string {
    env.sanitisedName(input) + "_data.json"
  }

  /**
   * `write_fold_input_json`: create the directory, then write
   * `<name>_data.json` into it. It fails when the directory cannot be
   * created (it is empty, it is a file, or its parent is), and when the
   * JSON path is a directory (or is the directory itself, for a name that
   * joins to it); otherwise at most the directory, its parent's listing
   * and the JSON path change.
   */
  function WriteFoldInputJson(fs: FileSystem, env: Collaborators, input: FoldInput, dir: Path): (r: Result<FileSystem>)
    ensures var path := Join(dir, JsonFileName(env, input));
            r.Err? <==> MakeDirs(fs, dir).Err? || path == dir || (Exists(fs, path) && fs.entries[path].Dir?)
    ensures dir == [] ==> r == Err(FileNotFound(dir))
    ensures dir != [] && Exists(fs, dir) && fs.entries[dir].File? ==> r == Err(FileExists(dir))
    ensures dir != [] && !Exists(fs, dir) && ParentIsFile(fs, dir) ==> r == Err(NotADirectory(dir))
    ensures r.Err? && MakeDirs(fs, dir).Ok? ==> r == Err(IsADirectory(Join(dir, JsonFileName(env, input))))
    ensures r.Ok? ==> Exists(r.value, dir) && r.value.entries[dir].Dir? && JsonFileName(env, input) in r.value.entries[dir].children
    ensures r.Ok? ==> Exists(r.value, Join(dir, JsonFileName(env, input))) && r.value.entries[Join(dir, JsonFileName(env, input))] == File
    ensures r.Ok? ==> forall q :: q in r.value.entries ==> q in fs.entries || q == dir || q == Join(dir, JsonFileName(env, input))
    ensures r.Ok? ==> forall q :: q in fs.entries && q != dir && q != Split(dir).0 && q != Join(dir, JsonFileName(env, input)) ==>
                                q in r.value.entries && r.value.entries[q] == fs.entries[q]
    ensures r.Ok? ==> Keeps(fs, r.value)
  {
    match MakeDirs(fs, dir)
      case Err(e) => Err(e)
      case Ok(made) => WriteFile(made, dir, JsonFileName(env, input))
  }

  /**
   * The effect of `process_fold_input` on the filesystem: the error it
   * raises, or the directory it chose and the filesystem after the input
   * JSON was written there.
   */
  function Attempt(env: Collaborators, config: Option<PipelineConfig>, foldInput: FoldInput,
                   fs: FileSystem, outputDir: Path, timestamp: string): (r: Result<(Path, FileSystem)>)
    ensures |foldInput.chains| == 0 ==> r == Err(NoChains)
    ensures r.Ok? ==> r.value.0 == outputDir || r.value.0 == outputDir + "_" + timestamp
    ensures r.Ok? ==> var (dir, after) := r.value;
                      && Exists(after, dir) && after.entries[dir].Dir?
                      && JsonFileName(env, PipelineOutput(env, config, foldInput)) in after.entries[dir].children
                      && Keeps(fs, after)
  {
    if |foldInput.chains| == 0 then Err(NoChains)
    else match OutputDirFor(fs, outputDir, timestamp)
      case Err(e) => Err(e)
      case Ok(dir) =>
        match WriteFoldInputJson(fs, env, PipelineOutput(env, config, foldInput), dir)
          case Err(e) => Err(e)
          case Ok(after) => Ok((dir, after))
  }

  method ProcessFoldInput(foldInput: FoldInput, dataPipelineConfig: Option<PipelineConfig>, runInference: bool,
                          outputDir: Path, buckets: seq<int>, env: Collaborators, fs: FileSystem, timestamp: string)
    returns (r: Result<Output>, fs': FileSystem, events: seq<Event>)
    // An input without chains is rejected before anything is inspected or written.
    ensures |foldInput.chains| == 0 ==> r == Err(NoChains) && fs' == fs && events == []
    // Choosing the directory can fail, on an existing non-directory.
    ensures |foldInput.chains| > 0 && OutputDirFor(fs, outputDir, timestamp).Err? ==>
              r == Err(OutputDirFor(fs, outputDir, timestamp).error) && fs' == fs && events == []
    ensures r.Ok? ==> |foldInput.chains| > 0 && OutputDirFor(fs, outputDir, timestamp).Ok?
    ensures r.Ok? ==>
      var dir := OutputDirFor(fs, outputDir, timestamp).value;
      var input := PipelineOutput(env, dataPipelineConfig, foldInput);
      && WriteFoldInputJson(fs, env, input, dir) == Ok(fs')
      && |events| >= 2 && events[..2] == [CreateDir(dir), WriteInputJson(Join(dir, JsonFileName(env, input)), input)]
      && (!runInference ==> r.value == Processed(input) && |events| == 2)
      && (runInference ==>
            r.value.Predicted?
            && events[2..] == [CreateDir(dir)] + SampleEvents(Samples(r.value.results), dir)
                              + Summary(Samples(r.value.results), dir, env.sanitisedName(input)))
    // With inference, the results are those of `predict_structure` on the processed input: one per
    // (seed, featurised example) pair, in seed order.
    ensures r.Ok? && runInference ==>
              r.value.Predicted? && PredictionOf(env.numerics, PipelineOutput(env, dataPipelineConfig, foldInput), buckets, r.value.results)
    // Once the chains and the directory pass, the run fails only where writing the input JSON fails.
    ensures |foldInput.chains| > 0 && OutputDirFor(fs, outputDir, timestamp).Ok? ==>
      var dir := OutputDirFor(fs, outputDir, timestamp).value;
      (r.Ok? <==> WriteFoldInputJson(fs, env, PipelineOutput(env, dataPipelineConfig, foldInput), dir).Ok?)
    // Afterwards the given directory is a non-empty directory, so a later input sent to it is redirected.
    ensures r.Ok? ==> Exists(fs', outputDir) && fs'.entries[outputDir].Dir? && fs'.entries[outputDir].children != {}
    // A fold input that raises has written nothing.
    ensures r.Err? ==> fs' == fs && events == []
    // It raises exactly what `Attempt` raises, and otherwise leaves the filesystem `Attempt` describes.
    ensures r.Err? <==> Attempt(env, dataPipelineConfig, foldInput, fs, outputDir, timestamp).Err?
    ensures r.Err? ==> r.error == Attempt(env, dataPipelineConfig, foldInput, fs, outputDir, timestamp).error
    ensures r.Ok? ==> Attempt(env, dataPipelineConfig, foldInput, fs, outputDir, timestamp)
                        == Ok((OutputDirFor(fs, outputDir, timestamp).value, fs'))
    // Nothing that existed is removed, whatever the outcome.
    ensures Keeps(fs, fs')
  {
    fs', events := fs, [];
    if |foldInput.chains| == 0 {
      return Err(NoChains), fs', events;
    }

    var dir := outputDir;
    if Exists(fs, outputDir) {
      var listing := ListDir(fs, outputDir);
      if listing.Err? {
        return Err(listing.error), fs', events;
      }
      if listing.value != {} {
        dir := outputDir + "_" + timestamp;
      }
    }

    var input := foldInput;
    if dataPipelineConfig.Some? {
      input := env.runPipeline(dataPipelineConfig.value, input);
    }

    var written := WriteFoldInputJson(fs, env, input, dir);
    if written.Err? {
      return Err(written.error), fs', events;
    }
    fs' := written.value;
    events := [CreateDir(dir), WriteInputJson(Join(dir, JsonFileName(env, input)), input)];
    NonEmptyAfterWrite(fs, env, input, outputDir, dir, timestamp);

    if !runInference {
      return Ok(Processed(input)), fs', events;
    }
    var allInferenceResults := PredictStructure(input, env.numerics, buckets);
    var outputEvents := WriteOutputs(allInferenceResults, dir, env.sanitisedName(input));
    events := events + outputEvents;
    assert events[2..] == outputEvents;
    return Ok(Predicted(allInferenceResults)), fs', events;
  }

  /** Wherever the input JSON went, the directory first asked for is non-empty afterwards. */
  lemma NonEmptyAfterWrite(fs: FileSystem, env: Collaborators, input: FoldInput, outputDir: Path, dir: Path, timestamp: string)
    requires OutputDirFor(fs, outputDir, timestamp) == Ok(dir)
    requires WriteFoldInputJson(fs, env, input, dir).Ok?
    ensures var after := WriteFoldInputJson(fs, env, input, dir).value;
            Exists(after, outputDir) && after.entries[outputDir].Dir? && after.entries[outputDir].children != {}
  {
    if dir != outputDir {
      assert Exists(fs, outputDir) && fs.entries[outputDir].children != {};
    }
  }

  /**
   * The directory is renamed to `<dir>_<timestamp>` exactly when it exists
   * and lists something, and is used as given when it is absent or an
   * empty directory.
   */
  lemma OutputDirChoice(fs: FileSystem, outputDir: Path, timestamp: string)
    ensures (OutputDirFor(fs, outputDir, timestamp) == Ok(outputDir + "_" + timestamp))
        <==> (Exists(fs, outputDir) && fs.entries[outputDir].Dir? && fs.entries[outputDir].children != {})
    ensures (OutputDirFor(fs, outputDir, timestamp) == Ok(outputDir))
        <==> (!Exists(fs, outputDir) || fs.entries[outputDir] == Dir({}))
    ensures OutputDirFor(fs, outputDir, timestamp).Err?
        <==> (Exists(fs, outputDir) && fs.entries[outputDir].File?)
    ensures OutputDirFor(fs, outputDir, timestamp).Err? ==> OutputDirFor(fs, outputDir, timestamp).error == NotADirectory(outputDir)
  {
    assert |outputDir + "_" + timestamp| > |outputDir|;
  }

  /**
   * Only the given directory is inspected: two filesystems that agree on it
   * lead to the same choice, whatever exists at `<dir>_<timestamp>`, so the
   * renaming happens once and is not checked again.
   */
  lemma OnlyGivenDirInspected(fs1: FileSystem, fs2: FileSystem, outputDir: Path, timestamp: string)
    requires Exists(fs1, outputDir) <==> Exists(fs2, outputDir)
    requires Exists(fs1, outputDir) ==> fs1.entries[outputDir] == fs2.entries[outputDir]
    ensures OutputDirFor(fs1, outputDir, timestamp) == OutputDirFor(fs2, outputDir, timestamp)
  {
  }
}
