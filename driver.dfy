/**
 * `main`: the flag checks, the choice of input source, the device checks,
 * the expansion of the database paths and the loop that sends every fold
 * input through `process_fold_input`.
 */
module Driver {
  import opened Common
  import opened Fs
  import opened Records
  import opened DbDir
  import opened Strings
  import opened Process
  import opened Predict
  import opened Ranking

  /**
   * The flags `main` acts on. `databasePaths` holds the nine database flags
   * in the order the data pipeline configuration lists them; `dbDirs` is
   * `--db_dir`.
   */
  datatype Args = Args(
    jsonPath: Option<Path>,
    inputDir: Option<Path>,
    runInference: bool,
    runDataPipeline: bool,
    outputDir: Path,
    dbDirs: seq<Path>,
    databasePaths: seq<Path>,
    buckets: seq<int>)

  /** Where the fold inputs are loaded from. */
  datatype Source = FromInputDir(dir: Path) | FromJsonPath(path: Path)

  /**
   * What the runtime reports: the compute capability of each local GPU, in
   * device order, and the `XLA_FLAGS` environment variable.
   */
  datatype Device = Device(gpuCapabilities: seq<real>, xlaFlags: Option<string>)

  /** The XLA flag that devices of compute capability 7.x need; `--cuda_compute_7x` sets it. */
  const RequiredXlaFlag := "--xla_disable_hlo_passes=custom-kernel-fusion-rewriter"

  /** The value the script puts in `XLA_FLAGS` when `--cuda_compute_7x` is not given. */
  const DefaultXlaFlags := "--xla_gpu_enable_triton_gemm=false"

  /**
   * The source check as written: `a is None == b is None` is a chained
   * comparison, `a is None and None == b and b is None`, so it holds only
   * when both flags are absent.
   */
  predicate SourceCheckRaises(args: Args): (b: bool)
    // The chained comparison holds only when both flags are absent.
    ensures b <==> args.jsonPath.None? && args.inputDir.None?
  {
    args.jsonPath == None && None == args.inputDir && args.inputDir == None
  }

  /** The two flag checks of `main`, in order. */
  function Validate(args: Args): (r: Result<()>)
    ensures r == Err(MissingInputSource) <==> args.jsonPath.None? && args.inputDir.None?
    ensures r == Err(NoRunMode) <==>
              (args.jsonPath.Some? || args.inputDir.Some?) && !args.runInference && !args.runDataPipeline
    ensures r.Ok? <==> (args.jsonPath.Some? || args.inputDir.Some?) && (args.runInference || args.runDataPipeline)
  {
    if SourceCheckRaises(args) then Err(MissingInputSource)
    else if !args.runInference && !args.runDataPipeline then Err(NoRunMode)
    else Ok(())
  }

  /** The input directory when given, else the JSON path, else the AssertionError. */
  function SelectSource(args: Args): (r: Result<Source>)
    ensures r.Ok? <==> args.inputDir.Some? || args.jsonPath.Some?
    ensures args.inputDir.Some? ==> r == Ok(FromInputDir(args.inputDir.value))
    ensures args.inputDir.None? && args.jsonPath.Some? ==> r == Ok(FromJsonPath(args.jsonPath.value))
    ensures r.Err? ==> r.error == NoSourceSelected
  {
    if args.inputDir.Some? then Ok(FromInputDir(args.inputDir.value))
    else if args.jsonPath.Some? then Ok(FromJsonPath(args.jsonPath.value))
    else Err(NoSourceSelected)
  }

  /**
   * Once the flags pass, a source is always selected (the AssertionError
   * cannot be raised), and it is the input directory whenever one is given.
   */
  lemma SelectedAfterValidation(args: Args)
    requires Validate(args).Ok?
    ensures SelectSource(args).Ok?
    ensures args.inputDir.Some? ==> SelectSource(args) == Ok(FromInputDir(args.inputDir.value))
    ensures args.inputDir.None? ==> SelectSource(args) == Ok(FromJsonPath(args.jsonPath.value))
  {
  }

  /**
   * Giving both `--json_path` and `--input_dir` is accepted, although the
   * message of the check says exactly one must be given; the JSON path is
   * then ignored.
   */
  lemma BothSourcesAccepted(args: Args)
    requires args.jsonPath.Some? && args.inputDir.Some?
    requires args.runInference || args.runDataPipeline
    ensures Validate(args).Ok?
    ensures SelectSource(args) == Ok(FromInputDir(args.inputDir.value))
  {
  }

  /** The fold inputs the chosen loader produces, or what it raises. */
  function Loaded(args: Args, loader: Source -> Result<seq<FoldInput>>): Result<seq<FoldInput>>
    requires Validate(args).Ok?
  {
    loader(SelectSource(args).value)
  }

  /**
   * The device check made before inference: only the first GPU is looked
   * at; below capability 6.0 it is refused, and at 7.x it needs the
   * required flag in `XLA_FLAGS` (`not xla_flags` is subsumed: an absent or
   * empty value contains no flag).
   */
  function DeviceCheck(runInference: bool, device: Device): (r: Result<()>)
    ensures !runInference || |device.gpuCapabilities| == 0 ==> r.Ok?
    ensures r.Err? ==> r.error == GpuTooOld || r.error == Compute7xFlagMissing
    ensures r == Err(GpuTooOld) <==> runInference && |device.gpuCapabilities| > 0 && device.gpuCapabilities[0] < 6.0
    ensures r == Err(Compute7xFlagMissing) <==>
              runInference && |device.gpuCapabilities| > 0 && 7.0 <= device.gpuCapabilities[0] < 8.0
              && (device.xlaFlags.None? || !Contains(device.xlaFlags.value, RequiredXlaFlag))
  {
    if runInference && |device.gpuCapabilities| > 0 then
      var capability := device.gpuCapabilities[0];
      if capability < 6.0 then Err(GpuTooOld)
      else if 7.0 <= capability < 8.0 && (device.xlaFlags.None? || !Contains(device.xlaFlags.value, RequiredXlaFlag)) then
        Err(Compute7xFlagMissing)
      else Ok(())
    else Ok(())
  }

  /** With the flag that `--cuda_compute_7x` sets, exactly the devices of capability below 6.0 are refused. */
  lemma Compute7xFlagSuffices(device: Device)
    requires device.xlaFlags == Some(RequiredXlaFlag)
    ensures DeviceCheck(true, device).Ok? <==> |device.gpuCapabilities| == 0 || device.gpuCapabilities[0] >= 6.0
  {
    ContainsLength(RequiredXlaFlag, RequiredXlaFlag);
  }

  /** Without `--cuda_compute_7x`, a first GPU of capability 7.x is refused. */
  lemma DefaultFlagsReject7x(device: Device)
    requires device.xlaFlags == Some(DefaultXlaFlags)
    requires |device.gpuCapabilities| > 0 && 7.0 <= device.gpuCapabilities[0] < 8.0
    ensures DeviceCheck(true, device) == Err(Compute7xFlagMissing)
  {
    ContainsLength(DefaultXlaFlags, RequiredXlaFlag);
  }

  /** Every database path resolves against `--db_dir`. */
  predicate AllResolve(args: Args, fs: FileSystem) {
    forall i :: 0 <= i < |args.databasePaths| ==> Resolution(args.databasePaths[i], args.dbDirs, fs).Ok?
  }

  /** The data pipeline configuration: the resolved database paths when the data pipeline runs, none otherwise. */
  function ExpectedConfig(args: Args, fs: FileSystem): Option<PipelineConfig>
    requires args.runDataPipeline ==> AllResolve(args, fs)
  {
    if args.runDataPipeline then
      Some(PipelineConfig(seq(|args.databasePaths|, i requires 0 <= i < |args.databasePaths| =>
        Resolution(args.databasePaths[i], args.dbDirs, fs).value)))
    else None
  }

  /**
   * Everything `main` checks before the first fold input passes: the flags,
   * creating the output directory, loading, the device check, resolving the
   * database paths, and a device to build the model on.
   */
  predicate Prepared(args: Args, device: Device, loader: Source -> Result<seq<FoldInput>>, fs: FileSystem) {
    && Validate(args).Ok?
    && MakeDirs(fs, args.outputDir).Ok?
    && Loaded(args, loader).Ok?
    && DeviceCheck(args.runInference, device).Ok?
    && (args.runDataPipeline ==> AllResolve(args, MakeDirs(fs, args.outputDir).value))
    && (args.runInference ==> |device.gpuCapabilities| > 0)
  }

  /** The traces of successive fold inputs, one after the other. */
  function Flatten(traces: seq<seq<Event>>): seq<Event> {
    if traces == [] then [] else Flatten(traces[..|traces| - 1]) + traces[|traces| - 1]
  }

  lemma FlattenAppend(traces: seq<seq<Event>>, t: seq<Event>)
    ensures Flatten(traces + [t]) == Flatten(traces) + t
  {
    assert (traces + [t])[..|traces|] == traces;
  }

  /** The directory a fold input is first sent to: its sanitised name under `--output_dir`. */
  function InputDir(args: Args, env: Collaborators, input: FoldInput): Path {
    Join(args.outputDir, env.sanitisedName(input))
  }

  predicate NonEmptyDir(fs: FileSystem, p: Path) {
    Exists(fs, p) && fs.entries[p].Dir? && fs.entries[p].children != {}
  }

  /**
   * The trace of one fold input that went through: it first creates its
   * directory and writes its input JSON there, and it writes outputs
   * exactly when inference runs: those `write_outputs` writes for the
   * results `predict_structure` gives on the input.
   */
  ghost predicate InputTrace(trace: seq<Event>, dir: Path, env: Collaborators, input: FoldInput, runInference: bool, buckets: seq<int>) {
    && |trace| >= 2
    && trace[..2] == [CreateDir(dir), WriteInputJson(Join(dir, JsonFileName(env, input)), input)]
    && (runInference <==> |trace| > 2)
    && (runInference ==>
          exists results :: PredictionOf(env.numerics, input, buckets, results)
            && trace[2..] == [CreateDir(dir)] + SampleEvents(Samples(results), dir) + Summary(Samples(results), dir, env.sanitisedName(input)))
  }

  /**
   * What the fold inputs that went through left behind: the k-th was
   * written to its own directory or to that directory with the k-th
   * timestamp appended, its trace starts with that directory and its input
   * JSON, its own directory is a non-empty directory in `fs`, and a later
   * fold input with the same directory was always sent to the timestamped
   * one.
   */
  ghost predicate Recorded(args: Args, env: Collaborators, config: Option<PipelineConfig>, inputs: seq<FoldInput>,
                     clock: nat -> string, fs: FileSystem, dirs: seq<Path>, traces: seq<seq<Event>>) {
    && |dirs| == |traces| <= |inputs|
    && (forall k :: 0 <= k < |dirs| ==>
          && (dirs[k] == InputDir(args, env, inputs[k]) || dirs[k] == InputDir(args, env, inputs[k]) + "_" + clock(k))
          && InputTrace(traces[k], dirs[k], env, PipelineOutput(env, config, inputs[k]), args.runInference, args.buckets)
          && NonEmptyDir(fs, InputDir(args, env, inputs[k])))
    && (forall j, k :: 0 <= j < k < |dirs| && InputDir(args, env, inputs[j]) == InputDir(args, env, inputs[k]) ==>
          dirs[k] == InputDir(args, env, inputs[k]) + "_" + clock(k))
  }

  /** One more fold input that went through keeps the record. */
  lemma RecordedStep(args: Args, env: Collaborators, config: Option<PipelineConfig>, inputs: seq<FoldInput>,
                     clock: nat -> string, before: FileSystem, after: FileSystem,
                     dirs: seq<Path>, traces: seq<seq<Event>>, dir: Path, trace: seq<Event>)
    requires Recorded(args, env, config, inputs, clock, before, dirs, traces) && |dirs| < |inputs|
    requires Keeps(before, after)
    requires var d := InputDir(args, env, inputs[|dirs|]);
             && OutputDirFor(before, d, clock(|dirs|)) == Ok(dir)
             && NonEmptyDir(after, d)
             && InputTrace(trace, dir, env, PipelineOutput(env, config, inputs[|dirs|]), args.runInference, args.buckets)
    ensures Recorded(args, env, config, inputs, clock, after, dirs + [dir], traces + [trace])
  {
    var n := |dirs|;
    var d := InputDir(args, env, inputs[n]);
    OutputDirChoice(before, d, clock(n));
    forall j | 0 <= j < n && InputDir(args, env, inputs[j]) == d
      ensures dir == d + "_" + clock(n)
    {
      assert NonEmptyDir(before, InputDir(args, env, inputs[j]));
    }
  }

  /**
   * The k-th fold input of those that went through took the filesystem from
   * `states[k]` to `states[k + 1]` and was written to `dirs[k]`: each
   * attempt succeeded on the filesystem the previous one left.
   */
  predicate Chained(args: Args, env: Collaborators, config: Option<PipelineConfig>, inputs: seq<FoldInput>,
                    clock: nat -> string, states: seq<FileSystem>, dirs: seq<Path>)
    decreases |dirs|
  {
    && |states| == |dirs| + 1 && |dirs| <= |inputs|
    && (|dirs| > 0 ==>
          var n := |dirs| - 1;
          && Chained(args, env, config, inputs, clock, states[..n + 1], dirs[..n])
          && Attempt(env, config, inputs[n], states[n], InputDir(args, env, inputs[n]), clock(n)) == Ok((dirs[n], states[n + 1])))
  }

  lemma ChainedStep(args: Args, env: Collaborators, config: Option<PipelineConfig>, inputs: seq<FoldInput>,
                    clock: nat -> string, states: seq<FileSystem>, dirs: seq<Path>, dir: Path, after: FileSystem)
    requires Chained(args, env, config, inputs, clock, states, dirs) && |dirs| < |inputs|
    requires var n := |dirs|;
             Attempt(env, config, inputs[n], states[n], InputDir(args, env, inputs[n]), clock(n)) == Ok((dir, after))
    ensures Chained(args, env, config, inputs, clock, states + [after], dirs + [dir])
  {
    var states', dirs' := states + [after], dirs + [dir];
    assert states'[..|dirs| + 1] == states && dirs'[..|dirs|] == dirs;
    assert states'[|dirs|] == states[|dirs|] && states'[|dirs| + 1] == after && dirs'[|dirs|] == dir;
  }

  /** Unfolded: every fold input that went through succeeded on the filesystem left before it, and left the next one. */
  lemma {:induction false} ChainedEach(args: Args, env: Collaborators, config: Option<PipelineConfig>, inputs: seq<FoldInput>,
                                       clock: nat -> string, states: seq<FileSystem>, dirs: seq<Path>)
    requires Chained(args, env, config, inputs, clock, states, dirs)
    ensures forall k :: 0 <= k < |dirs| ==>
              Attempt(env, config, inputs[k], states[k], InputDir(args, env, inputs[k]), clock(k)) == Ok((dirs[k], states[k + 1]))
  {
    if |dirs| > 0 {
      var n := |dirs| - 1;
      ChainedEach(args, env, config, inputs, clock, states[..n + 1], dirs[..n]);
      forall k | 0 <= k < n
        ensures Attempt(env, config, inputs[k], states[k], InputDir(args, env, inputs[k]), clock(k)) == Ok((dirs[k], states[k + 1]))
      {
        assert states[..n + 1][k] == states[k] && states[..n + 1][k + 1] == states[k + 1] && dirs[..n][k] == dirs[k];
      }
    }
  }

  /**
   * The loop of `main` over the fold inputs: each goes through
   * `process_fold_input` in order, in the directory named after it, until
   * one raises; the number processed is returned.
   */
  method ProcessAll(args: Args, env: Collaborators, config: Option<PipelineConfig>, foldInputs: seq<FoldInput>,
                    fs: FileSystem, clock: nat -> string)
    returns (r: Result<nat>, fs': FileSystem, events: seq<Event>,
             ghost dirs: seq<Path>, ghost traces: seq<seq<Event>>, ghost states: seq<FileSystem>)
    ensures Chained(args, env, config, foldInputs, clock, states, dirs) && states[0] == fs && states[|dirs|] == fs'
    ensures Recorded(args, env, config, foldInputs, clock, fs', dirs, traces)
    ensures events == Flatten(traces)
    ensures Keeps(fs, fs')
    ensures r.Ok? <==> |dirs| == |foldInputs|
    ensures r.Ok? ==> r.value == |foldInputs|
    // The loop stops early only at a fold input that raises, with the error that input raises.
    ensures r.Err? ==> |dirs| < |foldInputs|
                       && Attempt(env, config, foldInputs[|dirs|], fs', InputDir(args, env, foldInputs[|dirs|]), clock(|dirs|))
                          == Err(r.error)
  {
    fs', events, dirs, traces, states := fs, [], [], [], [fs];
    var numFoldInputs := 0;
    while numFoldInputs < |foldInputs|
      invariant 0 <= numFoldInputs <= |foldInputs| && |dirs| == numFoldInputs
      invariant Chained(args, env, config, foldInputs, clock, states, dirs) && states[0] == fs && states[|dirs|] == fs'
      invariant Recorded(args, env, config, foldInputs, clock, fs', dirs, traces)
      invariant events == Flatten(traces)
      invariant Keeps(fs, fs')
    {
      var foldInput := foldInputs[numFoldInputs];
      var outputDir := InputDir(args, env, foldInput);
      var timestamp := clock(numFoldInputs);
      ghost var before := fs';
      var processed, after, written := ProcessFoldInput(foldInput, config, args.runInference,
                                                        outputDir, args.buckets, env, fs', timestamp);
      if processed.Err? {
        return Err(processed.error), fs', events, dirs, traces, states;
      }
      ghost var dir := OutputDirFor(before, outputDir, timestamp).value;
      RecordedStep(args, env, config, foldInputs, clock, before, after, dirs, traces, dir, written);
      ChainedStep(args, env, config, foldInputs, clock, states, dirs, dir, after);
      states := states + [after];
      KeepsTransitive(fs, before, after);
      FlattenAppend(traces, written);
      fs', events := after, events + written;
      dirs, traces := dirs + [dir], traces + [written];
      numFoldInputs := numFoldInputs + 1;
    }
    return Ok(numFoldInputs), fs', events, dirs, traces, states;
  }

  /**
   * `main` after flag parsing. `loader` stands for the two fold-input
   * loaders, `clock(k)` for the timestamp read while processing the k-th
   * fold input. The ghost `dirs` and `traces` name, for each fold input
   * that went through, the directory it was written to and its writes.
   */
  method Run(args: Args, device: Device, loader: Source -> Result<seq<FoldInput>>, env: Collaborators,
             fs: FileSystem, clock: nat -> string)
    returns (r: Result<nat>, fs': FileSystem, events: seq<Event>,
             ghost dirs: seq<Path>, ghost traces: seq<seq<Event>>, ghost states: seq<FileSystem>)
    ensures Validate(args).Err? ==> r == Err(Validate(args).error) && fs' == fs && events == []
    ensures Validate(args).Ok? && MakeDirs(fs, args.outputDir).Err? ==>
              r == Err(MakeDirs(fs, args.outputDir).error) && fs' == fs && events == []
    // Once the output directory exists, its creation is the first write and nothing is removed afterwards.
    ensures Validate(args).Ok? && MakeDirs(fs, args.outputDir).Ok? ==>
              |events| > 0 && events[0] == CreateDir(args.outputDir) && Keeps(MakeDirs(fs, args.outputDir).value, fs')
    // The checks before the first fold input raise in order, before anything else is written.
    ensures Validate(args).Ok? && MakeDirs(fs, args.outputDir).Ok? && !Prepared(args, device, loader, fs) ==>
              fs' == MakeDirs(fs, args.outputDir).value && events == [CreateDir(args.outputDir)] && r.Err?
    ensures Validate(args).Ok? && MakeDirs(fs, args.outputDir).Ok? && Loaded(args, loader).Err? ==>
              r == Err(Loaded(args, loader).error)
    ensures Validate(args).Ok? && MakeDirs(fs, args.outputDir).Ok? && Loaded(args, loader).Ok?
            && DeviceCheck(args.runInference, device).Err? ==>
              r == Err(DeviceCheck(args.runInference, device).error)
    ensures Validate(args).Ok? && MakeDirs(fs, args.outputDir).Ok? && Loaded(args, loader).Ok?
            && DeviceCheck(args.runInference, device).Ok?
            && args.runDataPipeline && !AllResolve(args, MakeDirs(fs, args.outputDir).value) ==>
              exists i :: 0 <= i < |args.databasePaths|
                && Resolution(args.databasePaths[i], args.dbDirs, MakeDirs(fs, args.outputDir).value) == Err(r.error)
                && forall j :: 0 <= j < i ==> Resolution(args.databasePaths[j], args.dbDirs, MakeDirs(fs, args.outputDir).value).Ok?
    ensures Validate(args).Ok? && MakeDirs(fs, args.outputDir).Ok? && Loaded(args, loader).Ok?
            && DeviceCheck(args.runInference, device).Ok?
            && (args.runDataPipeline ==> AllResolve(args, MakeDirs(fs, args.outputDir).value))
            && args.runInference && |device.gpuCapabilities| == 0 ==>
              r == Err(NoGpuDevice)
    ensures r.Ok? ==> Prepared(args, device, loader, fs)
    // The fold inputs are processed in order until one raises; the count of them is returned.
    ensures Prepared(args, device, loader, fs) ==>
      var inputs := Loaded(args, loader).value;
      var config := ExpectedConfig(args, MakeDirs(fs, args.outputDir).value);
      && Recorded(args, env, config, inputs, clock, fs', dirs, traces)
      && events == [CreateDir(args.outputDir)] + Flatten(traces)
      && (r.Ok? <==> |dirs| == |inputs|)
      && (r.Ok? ==> r.value == |inputs|)
      && Chained(args, env, config, inputs, clock, states, dirs)
      && states[0] == MakeDirs(fs, args.outputDir).value && states[|dirs|] == fs'
      && (r.Err? ==> |dirs| < |inputs|
                     && Attempt(env, config, inputs[|dirs|], fs', InputDir(args, env, inputs[|dirs|]), clock(|dirs|)) == Err(r.error))
  {
    fs', events, dirs, traces, states := fs, [], [], [], [];
    var validated := Validate(args);
    if validated.Err? {
      return Err(validated.error), fs', events, dirs, traces, states;
    }

    var made := MakeDirs(fs, args.outputDir);
    if made.Err? {
      return Err(made.error), fs', events, dirs, traces, states;
    }
    fs', events := made.value, [CreateDir(args.outputDir)];

    SelectedAfterValidation(args);
    var source := SelectSource(args);
    var loaded := loader(source.value);
    if loaded.Err? {
      return Err(loaded.error), fs', events, dirs, traces, states;
    }

    var checked := DeviceCheck(args.runInference, device);
    if checked.Err? {
      return Err(checked.error), fs', events, dirs, traces, states;
    }

    var dataPipelineConfig: Option<PipelineConfig> := None;
    if args.runDataPipeline {
      var resolved := ResolveAll(args.databasePaths, args.dbDirs, fs');
      if resolved.Err? {
        return Err(resolved.error), fs', events, dirs, traces, states;
      }
      dataPipelineConfig := Some(PipelineConfig(resolved.value));
      ghost var expected := ExpectedConfig(args, fs').value.databasePaths;
      assert |resolved.value| == |expected| && forall i :: 0 <= i < |expected| ==> resolved.value[i] == expected[i];
      assert resolved.value == expected;
    }
    assert dataPipelineConfig == ExpectedConfig(args, fs');

    if args.runInference && |device.gpuCapabilities| == 0 {
      return Err(NoGpuDevice), fs', events, dirs, traces, states;
    }

    var processedEvents;
    r, fs', processedEvents, dirs, traces, states := ProcessAll(args, env, dataPipelineConfig, loaded.value, fs', clock);
    events := events + processedEvents;
  }
}
