# AlphaFold 3 run script, modelled in Dafny

This project models the orchestration logic of the AlphaFold 3 command-line
script `run/run_af3.py`. These are the parts of it that decide what happens.

- `main` checks its flags, creates the output directory, and loads the fold
  inputs from `--input_dir` or from `--json_path`.
- It checks the first GPU when inference runs.
- When the data pipeline runs, it expands every database flag through
  `replace_db_dir`.
- It sends each fold input, in order, through `process_fold_input`, in the
  directory named after the input.
- `process_fold_input` rejects inputs without chains. It moves to
  `<dir>_<timestamp>` when the directory already exists and lists
  something. It runs the data pipeline when one is configured and writes
  the input JSON. When inference runs, it predicts one result per seed and
  writes the outputs.
- `predict_structure` pairs the seeds with the featurised examples, as `zip`
  does.
- `write_outputs` writes every sample into `seed-<seed>_sample-<index>`. It
  keeps a running maximum of the ranking score, updated only on a strictly
  higher score. If there was any sample, it writes the best one and
  `ranking_scores.csv`.
- `replace_db_dir` parses its argument as a Python `string.Template`. This
  covers `$$`, `$name`, `${name}`, and a `$` that starts none of these. If
  the template names `DB_DIR`, it tries each `--db_dir` in turn and returns
  the first substitution that exists. Otherwise it requires the path itself
  to exist.

The model is organised as follows.

- The filesystem is a value: a map from paths to files and directories. A
  directory records the names it lists. Operations take one filesystem and
  return the next.
- The writes the script performs are recorded, in order, as a trace of
  `Event`s.
- Everything outside the script is a parameter:
  - the data pipeline, featurisation and the model, as functions;
  - the fold-input loaders;
  - the GPU list and `XLA_FLAGS`;
  - the clock, as one timestamp per fold input.
- Exceptions are `Err` values of one `Error` datatype. It has one
  constructor per cause of an exception.
- Ranking scores are mathematical reals.

Line 513 of `run/run_af3.py` is written
`json_path is None == input_dir is None`. Python reads this as a chained
comparison. It raises only when both flags are absent, although its message
says that exactly one must be given. The model follows the code:

- `Driver.SourceCheckRaises` is the chained comparison as written.
- `Driver.BothSourcesAccepted` shows that giving both flags is accepted,
  and that `--input_dir` then wins.
- `Driver.SelectedAfterValidation` shows that the `AssertionError` branch
  at line 545 cannot be reached.

## Model

| member | source | states |
|---|---|---|
| Common.JoinInjective | run/run_af3.py:357 | `os.path.join` of one directory with two relative names gives equal paths exactly when the names are equal |
| Fs.ListDir | run/run_af3.py:454 | `os.listdir` succeeds exactly on an existing directory and returns what it lists; it raises not-found on a missing path and not-a-directory on a file |
| Common.Split | run/run_af3.py:332 | `os.path.split`: the name is the whole last component (no `/`, preceded by `/` or the start of the path), and the head is everything before it less its trailing slashes, which are kept only when the head is nothing but slashes |
| Common.SplitUnique | run/run_af3.py:332 | any head and name meeting `Split`'s promise (`SplitsAs`) are exactly `Split`'s result, so the promise pins down `os.path.split` |
| Common.SplitJoin | run/run_af3.py:332-333 | splitting `os.path.join(dir, name)` gives back `dir` and `name` |
| Fs.MakeDirs | run/run_af3.py:332 | `os.makedirs(exist_ok=True)` raises `FileNotFoundError` on the empty path, `FileExistsError` exactly on an existing file and `NotADirectoryError` exactly on a new path whose parent is a file; it leaves an existing directory alone; otherwise the path becomes an empty directory, its parent (`os.path.split`) lists its name when that parent is an existing directory, and every other entry is unchanged |
| Fs.WriteFile | run/run_af3.py:333-336 | opening `join(dir, name)` for writing fails exactly when that path is a directory; otherwise the file exists, the directory lists `name`, and nothing else changes |
| Template.IdLength | run/run_af3.py:386 | the identifier after `$` is the longest run of identifier characters |
| Template.BracedLength | run/run_af3.py:386 | a `${name}` token is `$`, `{`, an identifier and `}`; conversely every `${name}` at the front is found, with its whole name |
| Template.Front | run/run_af3.py:386 | one step of the scan: the first token at the front of a template, and the rest of the text after it, which is shorter; a placeholder is named by an identifier |
| Template.Parse | run/run_af3.py:386-387 | the tokens of a template are no more than its characters, and every placeholder is named by an identifier |
| Template.ParseUnparse | run/run_af3.py:386-387 | writing the tokens back (`$$`, `$name`, `${name}`, a lone `$`, or the character itself) gives the template: the scan covers every character, in order |
| Template.NoLiteralDollar | run/run_af3.py:386 | every `$` starts a `$` token; none is copied as a plain character |
| Template.EscapedFront | run/run_af3.py:386-389 | `$$` at the front is one escape, whatever follows |
| Template.BracedFront | run/run_af3.py:386-387 | `${name}` at the front is one braced placeholder named `name`, whatever follows |
| Template.InvalidFront | run/run_af3.py:386-389 | a `$` that starts no escape, `$name` or `${name}` is one invalid token, and the scan resumes after it |
| Template.Substitute | run/run_af3.py:389 | `substitute(DB_DIR=v)` raises only `ValueError` for a stray `$` or `KeyError` for a placeholder other than `DB_DIR` that the template contains |
| Template.TemplateError | run/run_af3.py:389 | a template that cannot be substituted raises either `ValueError` for a stray `$` or `KeyError` for a placeholder other than `DB_DIR` that it contains |
| Template.SubstituteCharacterised | run/run_af3.py:389 | `substitute(DB_DIR=v)` succeeds exactly on templates whose tokens are all accepted, then expands them; otherwise it raises the first offending token's error, whatever `v` is |
| Template.LiteralParse | run/run_af3.py:386 | a string without `$` parses as its own characters |
| Template.LiteralTemplate | run/run_af3.py:386-389 | a string without `$` names no placeholder and substitutes to itself |
| Template.LiteralExpand | run/run_af3.py:389 | expanding a template of literal characters gives back those characters |
| Template.BracedDbDir | run/run_af3.py:387 | `${DB_DIR}` at the front of a path is one `DB_DIR` placeholder, whatever follows |
| Template.NamedPrefix | run/run_af3.py:387 | `$name` at the front of a path (`$DB_DIR` among them) is one placeholder with that name when no identifier character follows it |
| Template.NamedPlaceholder | run/run_af3.py:386 | a `$` followed by an identifier start is one placeholder, named by that whole identifier |
| Template.IdLengthOfPrefix | run/run_af3.py:387 | an identifier followed by a non-identifier character is read whole and no further |
| Template.DefaultTemplate | run/run_af3.py:84-127 | every database default, `${DB_DIR}` and a `$`-free suffix, names `DB_DIR`, is well formed and substitutes to the directory followed by the suffix |
| Template.PlaceholderThen | run/run_af3.py:387-389 | a `DB_DIR` placeholder in front of well-formed tokens is mentioned, keeps them well formed, and substitutes to the value followed by their expansion |
| DbDir.FirstExisting | run/run_af3.py:388-394 | an answer from the loop over the directories exists and is some directory's substitution; its errors are not-found for the original path or a substitution error |
| DbDir.Resolution | run/run_af3.py:384-397 | an answer of `replace_db_dir` exists and is the path itself or some directory's substitution; it raises only not-found, `ValueError` or `KeyError` |
| DbDir.ReplaceDbDir | run/run_af3.py:384-397 | the loop with its early return computes what `replace_db_dir` returns or raises |
| DbDir.FirstExistingFound | run/run_af3.py:388-394 | trying the directories in order succeeds exactly when some substitution exists, yields the first one that does, and otherwise raises not-found for the original path |
| DbDir.FirstExistingWins | run/run_af3.py:387-394 | with `DB_DIR` in a well-formed template, resolution succeeds exactly when some directory's substitution exists, and returns the substitution of the first such directory in flag order |
| DbDir.NoneExistsNotFound | run/run_af3.py:392-394 | with `DB_DIR` named, when no substitution exists (or there is no directory) the result is `FileNotFoundError` for the original path |
| DbDir.MalformedTemplateRaises | run/run_af3.py:388-389 | a stray `$` or a foreign placeholder beside `DB_DIR` raises from the first substitution, and not-found when there is no directory to try |
| DbDir.NoPlaceholderUnchanged | run/run_af3.py:395-397 | without `DB_DIR` the path is returned unchanged exactly when it exists, and raises not-found otherwise |
| DbDir.DefaultPathResolution | run/run_af3.py:84-127 | a default database path resolves exactly when some `d + suffix` exists, to the first such one, and raises not-found otherwise |
| DbDir.ResolveAll | run/run_af3.py:586-606 | the database flags resolve in order: the configuration holds every resolution when all succeed, and otherwise the error is that of the first path that fails |
| Strings.IntToString | run/run_af3.py:357 | `str(int)` is a minus sign exactly for a negative number, followed by digits |
| Strings.NatRoundTrip | run/run_af3.py:357 | the digits of a natural number read back to that number |
| Strings.IntRoundTrip | run/run_af3.py:357 | `str(int)` is undone by reading its digits back |
| Strings.IntToStringInjective | run/run_af3.py:357 | different ints print differently |
| Strings.IntToStringHasNoUnderscore | run/run_af3.py:357 | a printed int contains no `_`, so the `_sample-` separator is unambiguous |
| Strings.ContainsLength | run/run_af3.py:562 | `in` on strings: a string contains itself and nothing longer |
| Ranking.BestIndex | run/run_af3.py:364-366 | the running maximum picks an index of the samples |
| Ranking.VisitSeed | run/run_af3.py:356-366 | the inner loop over one seed's samples keeps the trace, the rows and the running maximum in step with the samples visited |
| Ranking.WriteOutputs | run/run_af3.py:339-381 | the writes are the output directory, then each sample's directory and output in loop order, then the best sample and the ranking table when there is any sample |
| RankingProperties.RowsAt | run/run_af3.py:363 | the table has one row per sample, in sample order, holding its seed, index and score |
| RankingProperties.SamplesAppend | run/run_af3.py:354-356 | the samples of two runs of seeds, one after the other, are the samples of each |
| RankingProperties.SampleCountIsLength | run/run_af3.py:354-363 | the table has as many rows as there are samples over all seeds |
| RankingProperties.SampleOrder | run/run_af3.py:354-363 | sample `j` of seed number `i` is row (samples of earlier seeds) + `j`, holding that seed, `j` and its score |
| RankingProperties.SampleAt | run/run_af3.py:354-363 | conversely, every row is sample `j` of some seed `i` |
| RankingProperties.BestIsFirstMaximum | run/run_af3.py:364-366 | the best sample scores at least every sample and strictly more than every earlier one, so the first maximum wins |
| RankingProperties.BestOutputTopsTheTable | run/run_af3.py:368-381 | the sample written as best carries the top score of the table written beside it, and no earlier row reaches that score |
| RankingProperties.SummaryTopsItsTable | run/run_af3.py:364-381 | the same for any non-empty sequence of samples |
| RankingProperties.SummaryIffAnySample | run/run_af3.py:368 | the best output and the table are written exactly when some seed produced a sample, and then both are written |
| RankingProperties.SampleCountPositive | run/run_af3.py:368 | there is a row exactly when some seed produced a sample |
| RankingProperties.SampleDirNameInjective | run/run_af3.py:357 | `seed-<seed>_sample-<index>` names are equal exactly when seed and index are |
| RankingProperties.SameSampleDirName | run/run_af3.py:357 | one sample directory name determines its seed and index |
| RankingProperties.SampleDirsDistinct | run/run_af3.py:354-358 | with pairwise different seeds, no two samples share an output directory |
| Predict.PredictStructure | run/run_af3.py:290-324 | one result per seed and example pair, as many as the shorter of the two; the i-th carries the i-th seed, the inference on the i-th example and the fold input |
| Process.OutputDirFor | run/run_af3.py:454-462 | the directory used is the given one or `<dir>_<timestamp>`; only a file in its place raises, and then not-a-directory |
| Process.WriteFoldInputJson | run/run_af3.py:327-336 | raising exactly when `makedirs` of the directory raises (it is empty, or it or its parent is a file) or the JSON path is a directory; otherwise the directory lists `<name>_data.json`, which is a file; only the directory, its parent's listing and the JSON path change, and nothing is removed |
| Process.Attempt | run/run_af3.py:449-478 | the inspecting and writing part of `process_fold_input`: no chains raises; on success the chosen directory is the given one or its timestamped variant, and it lists the JSON of the pipeline's output |
| Process.ProcessFoldInput | run/run_af3.py:449-504 | no chains raises before anything is inspected; of the modelled failures, the directory choice and writing the JSON are the only others, and the error raised is exactly that of `Process.Attempt`; on success the filesystem afterwards is the one `Process.Attempt` gives, the JSON of the pipeline's output is written first, and the outputs follow exactly when inference runs; with inference the results returned and written are those of `predict_structure` on the pipeline's output, one per seed and featurised example in seed order; a failure writes nothing |
| Process.NonEmptyAfterWrite | run/run_af3.py:454-478 | wherever the JSON went, the directory first asked for is non-empty afterwards |
| Process.OutputDirChoice | run/run_af3.py:454-462 | the directory is renamed exactly when it exists and lists something, used as given when absent or empty, and a file in its place raises not-a-directory |
| Process.OnlyGivenDirInspected | run/run_af3.py:454-462 | only the given directory is consulted: the renamed one is not checked |
| Driver.SourceCheckRaises | run/run_af3.py:513-516 | the chained comparison `json_path is None == input_dir is None` holds exactly when both flags are absent |
| Driver.Validate | run/run_af3.py:513-522 | the flag checks raise the source error exactly when both sources are absent, the mode error exactly when a source is given but neither mode, and pass otherwise |
| Driver.SelectSource | run/run_af3.py:531-548 | a source is selected exactly when one of the two flags is given; `--input_dir` wins over `--json_path`; otherwise the `AssertionError` |
| Driver.SelectedAfterValidation | run/run_af3.py:531-548 | after the flag checks a source is always chosen, the input directory whenever it is given |
| Driver.BothSourcesAccepted | run/run_af3.py:513-537 | both `--json_path` and `--input_dir` together pass the checks and the input directory is used |
| Driver.DeviceCheck | run/run_af3.py:550-568 | without inference or without a GPU nothing is refused; the capability error is raised exactly when the first GPU is below 6.0, and the 7.x flag error exactly when it is 7.x and `XLA_FLAGS` is unset or lacks the required flag |
| Driver.Compute7xFlagSuffices | run/run_af3.py:553-568 | with the flag that `--cuda_compute_7x` sets, a first GPU is refused exactly when its capability is below 6.0 |
| Driver.DefaultFlagsReject7x | run/run_af3.py:560-568 | with the default `XLA_FLAGS`, a first GPU of capability 7.x is refused |
| Driver.FlattenAppend | run/run_af3.py:633-642 | the trace of one more fold input follows the traces before it |
| Driver.RecordedStep | run/run_af3.py:633-642 | one more fold input that went through keeps every earlier directory non-empty and sends a repeated name to the timestamped directory |
| Driver.ChainedStep | run/run_af3.py:631-644 | one more fold input that went through extends the chain of filesystems, each input's attempt succeeding on the filesystem the previous one left |
| Driver.ChainedEach | run/run_af3.py:631-644 | in a chain, the k-th fold input's attempt succeeded on the k-th filesystem, went to the k-th directory and left the next filesystem |
| Driver.ProcessAll | run/run_af3.py:631-644 | fold inputs go through in order, each on the filesystem the previous one left; the loop stops only at an input whose attempt raises on that filesystem, with its error; each input went to its own directory or its timestamped variant, wrote its JSON first and, exactly when inference runs, then the sample outputs, the best output and the ranking table of `predict_structure`'s results, left its directory non-empty, and a repeated name was always redirected; the count is returned |
| Driver.Run | run/run_af3.py:513-644 | the checks raise in the order of `main` and write nothing beyond the output directory; a failing `makedirs` of it re-raises its error; an unresolved database path raises the error of the first one that fails, in flag order; once the checks pass, the fold inputs are processed with the resolved configuration, each on the filesystem the previous one left, and, of the modelled failures, the run stops only at an input whose attempt raises, with its error; each input's writes are its JSON followed, under inference, by the outputs of its predicted results; nothing on disk is removed |

## Left out

- Model construction and parameter loading are not modelled: `ModelRunner`, `make_model_config`, the JAX model, and the model-parameter check at lines 464-468. They are numerical code or foreign calls.
- Featurisation, the chemical component dictionary, the data pipeline, `post_processing.write_output` and `FoldInput.sanitised_name` are function parameters. Their own behaviour is foreign code.
- The fold-input loaders from the `af3_utils` module are one function parameter. They are taken as eager, so an error raised part-way through a lazy loader is not interleaved with processing.
- `jax.local_devices` is a list parameter of compute capabilities. Its own failure, for example when the GPU backend is missing, is not modelled.
- Printing, logging, the terms-of-use notice, the JAX compilation cache, the absl flag definitions and `get_af3_args` are not modelled. They do not affect the outcome.
- The contents of the files written are not modelled: the JSON text, the CSV text, and the output terms of use read at line 350. Only which writes happen, to which paths, with which values, is modelled.
- Ranking scores are reals, so NaN and the `float()` conversion are not modelled.
- `Ranking.WriteOutputs`: the writes made inside `write_outputs` (sample directories, outputs, the CSV) are recorded only in the trace, not in the filesystem value. A failing `makedirs` of a sample directory is therefore not modelled.
- `Fs.MakeDirs`: intermediate directories are not created, so the `NotADirectoryError` that `os.makedirs` raises when a file sits further up the missing ancestors is not modelled; a path ending in `/` does not update its parent's listing, and permission errors are not modelled.
- The filesystem map is not required to be a tree: an entry may exist while its parent does not, a state a real filesystem cannot reach. In such a state the model can fail where `os.makedirs` would have created the parents, for example when `<dir>/<name>_data.json` is a directory while `<dir>` is absent.
- `Process.ProcessFoldInput`: the data pipeline, featurisation, the model, `write_output` and the reading of the output terms of use are taken as never raising. An exception from them after the input JSON is written (the largest-bucket error of lines 437-441, raised by featurisation at line 281 within the call at line 487) is therefore not modelled. The stated failures are those of the modelled steps.
- `Driver.Run`: the loaders also receive `output_dir`, `run_mmseqs` and `max_template_date` (lines 532-543). They are taken as not touching the filesystem.
- `FoldInput.sanitised_name` is taken to give a plain name: without `/` and not absolute. `Fs.WriteFile` lists the name in the directory as given, so a name with `/` would be listed wrongly.
- Paths are compared as strings, so `..`, `.` and repeated `/` are not normalised.
- `Driver.Run`: the per-input timestamp comes from a `clock` parameter, and the `%Y%m%d_%H%M%S` format is not modelled. The proofs therefore do not rule out two inputs with the same name getting the same timestamp within one second.
- `Driver.Run`: `--buckets` is taken as integers already parsed. A failing `int(bucket)` is not modelled.
- `Driver.Run`: what `process_fold_input` returns is discarded, as in the source. Only its writes, its filesystem effect and its errors are stated.
- The `XLA_FLAGS` assignments at lines 649-660 are not modelled. `Driver.Compute7xFlagSuffices` and `Driver.DefaultFlagsReject7x` take the two values they set.
