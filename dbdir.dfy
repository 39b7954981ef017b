/**
 * `replace_db_dir`: resolving a database path flag against the configured
 * database directories.
 */
module DbDir {
  import opened Common
  import opened Fs
  import opened Template

  /** The path each directory's substitution yields, tried in order; the first one that exists wins. */
  function FirstExisting(path: Path, ts: seq<Token>, dbDirs: seq<Path>, fs: FileSystem): (r: Result<Path>)
    ensures r.Ok? ==> Exists(fs, r.value) && exists k :: 0 <= k < |dbDirs| && Substitute(ts, dbDirs[k]) == Ok(r.value)
    ensures r.Err? ==> r.error == FileNotFound(path) || r.error == InvalidPlaceholder || r.error.KeyError?
    decreases |dbDirs|
  {
    if dbDirs == [] then Err(FileNotFound(path))
    else match Substitute(ts, dbDirs[0])
      case Err(e) => Err(e)
      case Ok(candidate) =>
        if Exists(fs, candidate) then Ok(candidate) else FirstExisting(path, ts, dbDirs[1..], fs)
  }

  /**
   * What `replace_db_dir(path, db_dirs)` returns or raises. A returned path
   * exists, and is the path itself or its substitution for one of the
   * directories; a raised error is not-found for the path or the template's
   * own substitution error.
   */
  function Resolution(path: Path, dbDirs: seq<Path>, fs: FileSystem): (r: Result<Path>)
    ensures r.Ok? ==> Exists(fs, r.value)
    ensures r.Ok? ==> r.value == path || exists k :: 0 <= k < |dbDirs| && Substitute(Parse(path), dbDirs[k]) == Ok(r.value)
    ensures r.Err? ==> r.error == FileNotFound(path) || r.error == InvalidPlaceholder || r.error.KeyError?
  {
    var ts := Parse(path);
    if Mentions(ts, DbDirKey) then FirstExisting(path, ts, dbDirs, fs)
    else if Exists(fs, path) then Ok(path)
    else Err(FileNotFound(path))
  }

  /** The loop of `replace_db_dir`, with its early return. */
  method ReplaceDbDir(path: Path, dbDirs: seq<Path>, fs: FileSystem) returns (r: Result<Path>)
    ensures r == Resolution(path, dbDirs, fs)
  {
    var ts := Parse(path);
    if Mentions(ts, DbDirKey) {
      var i := 0;
      while i < |dbDirs|
        invariant 0 <= i <= |dbDirs|
        invariant FirstExisting(path, ts, dbDirs, fs) == FirstExisting(path, ts, dbDirs[i..], fs)
      {
        assert dbDirs[i..][1..] == dbDirs[i + 1..];
        var candidate := Substitute(ts, dbDirs[i]);
        if candidate.Err? {
          return Err(candidate.error);
        }
        if Exists(fs, candidate.value) {
          return Ok(candidate.value);
        }
        i := i + 1;
      }
      return Err(FileNotFound(path));
    }
    if !Exists(fs, path) {
      return Err(FileNotFound(path));
    }
    return Ok(path);
  }

  /** The candidate for directory `d` exists. */
  predicate Hit(ts: seq<Token>, d: Path, fs: FileSystem)
    requires WellFormed(ts)
  {
    Exists(fs, Expand(ts, d))
  }

  lemma {:induction false} FirstExistingFound(path: Path, ts: seq<Token>, dbDirs: seq<Path>, fs: FileSystem)
    requires WellFormed(ts)
    ensures FirstExisting(path, ts, dbDirs, fs).Ok? <==> exists k :: 0 <= k < |dbDirs| && Hit(ts, dbDirs[k], fs)
    ensures FirstExisting(path, ts, dbDirs, fs).Err? ==> FirstExisting(path, ts, dbDirs, fs) == Err(FileNotFound(path))
    ensures FirstExisting(path, ts, dbDirs, fs).Ok? ==>
      exists k :: 0 <= k < |dbDirs| && Hit(ts, dbDirs[k], fs)
        && FirstExisting(path, ts, dbDirs, fs).value == Expand(ts, dbDirs[k])
        && forall j :: 0 <= j < k ==> !Hit(ts, dbDirs[j], fs)
  {
    if dbDirs != [] {
      SubstituteCharacterised(ts, dbDirs[0]);
      FirstExistingFound(path, ts, dbDirs[1..], fs);
      if !Hit(ts, dbDirs[0], fs) {
        if FirstExisting(path, ts, dbDirs, fs).Ok? {
          var k :| 0 <= k < |dbDirs| - 1 && Hit(ts, dbDirs[1..][k], fs)
            && FirstExisting(path, ts, dbDirs[1..], fs).value == Expand(ts, dbDirs[1..][k])
            && forall j :: 0 <= j < k ==> !Hit(ts, dbDirs[1..][j], fs);
          assert dbDirs[k + 1] == dbDirs[1..][k];
          forall j | 0 <= j < k + 1 ensures !Hit(ts, dbDirs[j], fs) {
            if j > 0 { assert dbDirs[j] == dbDirs[1..][j - 1]; }
          }
        }
        forall k | 0 <= k < |dbDirs| && Hit(ts, dbDirs[k], fs)
          ensures exists k' :: 0 <= k' < |dbDirs[1..]| && Hit(ts, dbDirs[1..][k'], fs)
        {
          assert dbDirs[1..][k - 1] == dbDirs[k];
        }
      } else {
        assert Hit(ts, dbDirs[0], fs);
      }
    }
  }

  /**
   * With a DB_DIR placeholder in a well-formed template, resolution succeeds
   * exactly when some directory's substitution exists, and then yields the
   * substitution of the first such directory in list order.
   */
  lemma FirstExistingWins(path: Path, dbDirs: seq<Path>, fs: FileSystem)
    requires Mentions(Parse(path), DbDirKey) && WellFormed(Parse(path))
    ensures Resolution(path, dbDirs, fs).Ok? <==> exists k :: 0 <= k < |dbDirs| && Hit(Parse(path), dbDirs[k], fs)
    ensures Resolution(path, dbDirs, fs).Ok? ==>
      exists k :: 0 <= k < |dbDirs|
        && Resolution(path, dbDirs, fs).value == Expand(Parse(path), dbDirs[k])
        && Exists(fs, Resolution(path, dbDirs, fs).value)
        && forall j :: 0 <= j < k ==> !Hit(Parse(path), dbDirs[j], fs)
  {
    FirstExistingFound(path, Parse(path), dbDirs, fs);
  }

  /**
   * With a DB_DIR placeholder, when no directory's substitution exists
   * (in particular when there are no directories) resolution raises
   * not-found for the original path.
   */
  lemma NoneExistsNotFound(path: Path, dbDirs: seq<Path>, fs: FileSystem)
    requires Mentions(Parse(path), DbDirKey)
    requires WellFormed(Parse(path)) || dbDirs == []
    requires WellFormed(Parse(path)) ==> forall k :: 0 <= k < |dbDirs| ==> !Hit(Parse(path), dbDirs[k], fs)
    ensures Resolution(path, dbDirs, fs) == Err(FileNotFound(path))
  {
    if dbDirs != [] {
      FirstExistingFound(path, Parse(path), dbDirs, fs);
    }
  }

  /**
   * A placeholder other than DB_DIR, or a stray `$`, next to a DB_DIR
   * placeholder makes the first substitution raise, unless there are no
   * directories to try.
   */
  lemma MalformedTemplateRaises(path: Path, dbDirs: seq<Path>, fs: FileSystem)
    requires Mentions(Parse(path), DbDirKey) && !WellFormed(Parse(path))
    ensures Resolution(path, dbDirs, fs) == Err(if dbDirs == [] then FileNotFound(path) else TemplateError(Parse(path)))
  {
    if dbDirs != [] {
      SubstituteCharacterised(Parse(path), dbDirs[0]);
    }
  }

  /** Without a DB_DIR placeholder the path is returned unchanged if it exists, and raises not-found otherwise. */
  lemma NoPlaceholderUnchanged(path: Path, dbDirs: seq<Path>, fs: FileSystem)
    requires !Mentions(Parse(path), DbDirKey)
    ensures Exists(fs, path) ==> Resolution(path, dbDirs, fs) == Ok(path)
    ensures !Exists(fs, path) ==> Resolution(path, dbDirs, fs) == Err(FileNotFound(path))
    ensures Resolution(path, dbDirs, fs).Ok? <==> Exists(fs, path)
  {
  }

  /**
   * The shipped defaults, `${DB_DIR}` and a `$`-free suffix, resolve to the
   * first directory `d` for which `d + suffix` exists.
   */
  lemma DefaultPathResolution(suffix: string, dbDirs: seq<Path>, fs: FileSystem)
    requires '$' !in suffix
    ensures Resolution("${DB_DIR}" + suffix, dbDirs, fs).Ok? <==> exists k :: 0 <= k < |dbDirs| && Exists(fs, dbDirs[k] + suffix)
    ensures Resolution("${DB_DIR}" + suffix, dbDirs, fs).Ok? ==>
      exists k :: 0 <= k < |dbDirs|
        && Resolution("${DB_DIR}" + suffix, dbDirs, fs).value == dbDirs[k] + suffix
        && Exists(fs, dbDirs[k] + suffix)
        && forall j :: 0 <= j < k ==> !Exists(fs, dbDirs[j] + suffix)
    ensures Resolution("${DB_DIR}" + suffix, dbDirs, fs).Err? ==>
      Resolution("${DB_DIR}" + suffix, dbDirs, fs) == Err(FileNotFound("${DB_DIR}" + suffix))
  {
    var path := "${DB_DIR}" + suffix;
    var ts := Parse(path);
    DefaultTemplate(suffix, "");
    forall d: Path ensures Expand(ts, d) == d + suffix {
      DefaultTemplate(suffix, d);
      SubstituteCharacterised(ts, d);
    }
    FirstExistingFound(path, ts, dbDirs, fs);
  }

  /** Resolving the database flags in order; the first one that cannot be resolved raises. */
  method ResolveAll(paths: seq<Path>, dbDirs: seq<Path>, fs: FileSystem) returns (r: Result<seq<Path>>)
    ensures r.Ok? <==> forall i :: 0 <= i < |paths| ==> Resolution(paths[i], dbDirs, fs).Ok?
    ensures r.Ok? ==> |r.value| == |paths| && forall i :: 0 <= i < |paths| ==> r.value[i] == Resolution(paths[i], dbDirs, fs).value
    ensures r.Err? ==> exists i :: 0 <= i < |paths| && Resolution(paths[i], dbDirs, fs) == Err(r.error)
                          && forall j :: 0 <= j < i ==> Resolution(paths[j], dbDirs, fs).Ok?
  {
    var resolved: seq<Path> := [];
    var i := 0;
    while i < |paths|
      invariant 0 <= i <= |paths| && |resolved| == i
      invariant forall j :: 0 <= j < i ==> Resolution(paths[j], dbDirs, fs) == Ok(resolved[j])
    {
      var p := ReplaceDbDir(paths[i], dbDirs, fs);
      if p.Err? {
        return Err(p.error);
      }
      resolved := resolved + [p.value];
      i := i + 1;
    }
    return Ok(resolved);
  }
}
