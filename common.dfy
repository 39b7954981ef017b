/**
 * Values shared by every part of the model: paths, optional values, the
 * exceptions the script raises or lets through, and POSIX path joining.
 */
module Common {

  /** A path as the script handles it: a plain string, never normalised. */
  type Path = string

  datatype Option<+T> = None | Some(value: T)

  /** The exceptions of the modelled code, one constructor per cause. */
  datatype Error =
    | FileNotFound(path: Path)        // FileNotFoundError raised by replace_db_dir
    | FileExists(path: Path)          // os.makedirs(exist_ok=True) on an existing non-directory
    | NotADirectory(path: Path)       // os.listdir on an existing non-directory
    | IsADirectory(path: Path)        // open(path, 'wt') on an existing directory
    | KeyError(key: string)           // Template.substitute: a placeholder other than DB_DIR
    | InvalidPlaceholder              // Template.substitute: a `$` that starts no placeholder
    | NoChains                        // ValueError: the fold input has no chains
    | MissingInputSource              // ValueError: neither --json_path nor --input_dir
    | NoRunMode                       // ValueError: neither --run_inference nor --run_data_pipeline
    | NoSourceSelected                // AssertionError: no input source after validation
    | GpuTooOld                       // ValueError: GPU compute capability below 6.0
    | Compute7xFlagMissing            // ValueError: capability 7.x without the required XLA flag
    | NoGpuDevice                     // IndexError: devices[0] on an empty device list
    | InputError(message: string)     // whatever loading the fold inputs raises

  datatype Result<+T> = Ok(value: T) | Err(error: Error)

  /** `os.path.join(dir, name)` on POSIX, for two components. */
  function Join(dir: Path, name: Path): Path
  {
    if |name| > 0 && name[0] == '/' then name
    else if dir == [] || dir[|dir| - 1] == '/' then dir + name
    else dir + "/" + name
  }

  /** The index just past the last `/` of `p`, or 0 when there is none. */
  function NameStart(p: Path): (i: nat)
    ensures i <= |p|
    ensures i > 0 ==> p[i - 1] == '/'
    ensures forall j :: i <= j < |p| ==> p[j] != '/'
  {
    if p == [] then 0 else if p[|p| - 1] == '/' then |p| else NameStart(p[..|p| - 1])
  }

  /** `head.rstrip('/')`. */
  function StripSlashes(head: Path): (h: Path)
    ensures |h| <= |head| && h == head[..|h|]
    ensures h == [] || h[|h| - 1] != '/'
    ensures forall j :: |h| <= j < |head| ==> head[j] == '/'
  {
    if head != [] && head[|head| - 1] == '/' then StripSlashes(head[..|head| - 1]) else head
  }

  /**
   * `os.path.split(p)` on POSIX: everything before the last `/` (trailing
   * slashes removed unless it is nothing but slashes) and the name after it.
   */
  function Split(p: Path): (r: (Path, string))
    ensures |r.0| + |r.1| <= |p|
    // The name is the whole last component: no `/` in it, and a `/` or the start of `p` before it.
    ensures '/' !in r.1 && r.1 == p[|p| - |r.1|..]
    ensures |r.1| < |p| ==> p[|p| - |r.1| - 1] == '/'
    // The head is what precedes the name, less only trailing slashes.
    ensures r.0 == p[..|r.0|]
    ensures forall j :: |r.0| <= j < |p| - |r.1| ==> p[j] == '/'
    // Those are kept when the head is nothing but slashes, and removed otherwise.
    ensures (forall j :: 0 <= j < |r.0| ==> r.0[j] == '/') ==> |r.0| + |r.1| == |p|
    ensures r.0 == [] || r.0[|r.0| - 1] != '/' || (forall j :: 0 <= j < |r.0| ==> r.0[j] == '/')
  {
    var i := NameStart(p);
    var head, tail := p[..i], p[i..];
    if head != [] && exists j :: 0 <= j < |head| && head[j] != '/' then (StripSlashes(head), tail) else (head, tail)
  }

  /** What `Split` promises of a head `h` and a name `n` of `p`. */
  predicate SplitsAs(p: Path, h: Path, n: string) {
    && |h| + |n| <= |p|
    && '/' !in n && n == p[|p| - |n|..]
    && (|n| < |p| ==> p[|p| - |n| - 1] == '/')
    && h == p[..|h|]
    && (forall j :: |h| <= j < |p| - |n| ==> p[j] == '/')
    && ((forall j :: 0 <= j < |h| ==> h[j] == '/') ==> |h| + |n| == |p|)
    && (h == [] || h[|h| - 1] != '/' || (forall j :: 0 <= j < |h| ==> h[j] == '/'))
  }

  /** That promise leaves no choice: `Split` is the only pair meeting it. */
  lemma SplitUnique(p: Path, h: Path, n: string)
    requires SplitsAs(p, h, n)
    ensures (h, n) == Split(p)
  {
    var (h', n') := Split(p);
    assert SplitsAs(p, h', n');
    NameUnique(p, n, n');
    NameUnique(p, n', n);
    assert |n| == |n'|;
    var len := |p| - |n|;
    HeadUnique(p, len, h, h');
    HeadUnique(p, len, h', h);
  }

  /** A slash-free tail preceded by `/` is at least as long as any slash-free tail. */
  lemma NameUnique(p: Path, n: string, n': string)
    requires |n| <= |p| && '/' !in n && n == p[|p| - |n|..] && (|n| < |p| ==> p[|p| - |n| - 1] == '/')
    requires |n'| <= |p| && '/' !in n' && n' == p[|p| - |n'|..]
    ensures |n'| <= |n|
  {
  }

  /** Of two heads that both meet `SplitsAs`'s head clauses, neither is longer. */
  lemma HeadUnique(p: Path, len: nat, h: Path, h': Path)
    requires len <= |p|
    requires |h| <= len && h == p[..|h|] && (forall j :: |h| <= j < len ==> p[j] == '/')
    requires (forall j :: 0 <= j < |h| ==> h[j] == '/') ==> |h| == len
    requires h == [] || h[|h| - 1] != '/' || (forall j :: 0 <= j < |h| ==> h[j] == '/')
    requires |h'| <= len && h' == p[..|h'|] && (forall j :: |h'| <= j < len ==> p[j] == '/')
    requires (forall j :: 0 <= j < |h'| ==> h'[j] == '/') ==> |h'| == len
    requires h' == [] || h'[|h'| - 1] != '/' || (forall j :: 0 <= j < |h'| ==> h'[j] == '/')
    ensures |h| <= |h'|
  {
  }

  /** Splitting a joined path gives back its directory and its name. */
  lemma SplitJoin(dir: Path, name: string)
    requires dir != [] && dir[|dir| - 1] != '/'
    requires name != [] && '/' !in name
    ensures Split(Join(dir, name)) == (dir, name)
  {
    var p := Join(dir, name);
    assert p == dir + "/" + name;
    assert p[|dir|] == '/';
    assert forall j :: |dir| < j < |p| ==> p[j] == name[j - |dir| - 1];
    var i := NameStart(p);
    assert i == |dir| + 1;
    assert p[..i] == dir + "/";
    assert p[i..] == name;
    assert p[..i][|dir| - 1] != '/';
    assert StripSlashes(dir + "/") == StripSlashes(dir) by {
      assert (dir + "/")[..|dir|] == dir;
    }
  }

  /** Joining a relative name onto a fixed directory never maps two names to one path. */
  lemma JoinInjective(dir: Path, a: Path, b: Path)
    requires |a| == 0 || a[0] != '/'
    requires |b| == 0 || b[0] != '/'
    ensures Join(dir, a) == Join(dir, b) <==> a == b
  {
    var sep := if dir == [] || dir[|dir| - 1] == '/' then "" else "/";
    assert Join(dir, a) == (dir + sep) + a;
    assert Join(dir, b) == (dir + sep) + b;
    assert a == Join(dir, a)[|dir + sep|..];
    assert b == Join(dir, b)[|dir + sep|..];
  }
}
