/**
 * The part of the operating system's filesystem that the script consults:
 * which paths exist, which of them are directories, and what a directory
 * lists. Paths are compared as strings; there is no normalisation.
 */
module Fs {
  import opened Common

  datatype Entry = File | Dir(children: set<string>)

  datatype FileSystem = FileSystem(entries: map<Path, Entry>)

  /**
   * Nothing the script does removes a path or turns a directory into a
   * file: every path of `before` is still there, and a directory still
   * lists at least what it listed.
   */
  predicate Keeps(before: FileSystem, after: FileSystem) {
    forall q :: q in before.entries ==>
      q in after.entries && (before.entries[q].Dir? ==> after.entries[q].Dir? && before.entries[q].children <= after.entries[q].children)
  }

  lemma KeepsTransitive(a: FileSystem, b: FileSystem, c: FileSystem)
    requires Keeps(a, b) && Keeps(b, c)
    ensures Keeps(a, c)
  {
  }

  /** `os.path.exists(p)`. */
  predicate Exists(fs: FileSystem, p: Path) {
    p in fs.entries
  }

  /** `os.listdir(p)`: the names in a directory, or the error it raises. */
  function ListDir(fs: FileSystem, p: Path): (r: Result<set<string>>)
    ensures r.Ok? <==> Exists(fs, p) && fs.entries[p].Dir?
    ensures !Exists(fs, p) ==> r == Err(FileNotFound(p))
    ensures Exists(fs, p) && fs.entries[p].File? ==> r == Err(NotADirectory(p))
    ensures r.Ok? ==> r.value == fs.entries[p].children
  {
    if p !in fs.entries then Err(FileNotFound(p))
    else match fs.entries[p]
      case File => Err(NotADirectory(p))
      case Dir(children) => Ok(children)
  }

  /**
   * `os.makedirs(p, exist_ok=True)`: fails on the empty path (`mkdir('')`
   * raises `FileNotFoundError`), on an existing non-directory, and
   * on a new path whose parent, `os.path.split(p)`, is a file (`mkdir`
   * raises `NotADirectoryError`, which `exist_ok` does not excuse); leaves
   * an existing directory alone; and otherwise adds an empty directory and
   * lists its name in its parent when that parent is an existing directory.
   * Missing intermediate directories are not created.
   */
  function MakeDirs(fs: FileSystem, p: Path): (r: Result<FileSystem>)
    ensures r.Err? <==> p == [] || (Exists(fs, p) && fs.entries[p].File?) || (!Exists(fs, p) && ParentIsFile(fs, p))
    ensures p == [] ==> r == Err(FileNotFound(p))
    ensures p != [] && Exists(fs, p) && fs.entries[p].File? ==> r == Err(FileExists(p))
    ensures p != [] && !Exists(fs, p) && ParentIsFile(fs, p) ==> r == Err(NotADirectory(p))
    ensures p != [] && Exists(fs, p) && fs.entries[p].Dir? ==> r == Ok(fs)
    ensures r.Ok? ==> Exists(r.value, p) && r.value.entries[p].Dir?
    ensures r.Ok? ==> forall q :: q != p ==> (q in r.value.entries <==> q in fs.entries)
    ensures r.Ok? ==> forall q :: q in fs.entries && q != Split(p).0 ==> r.value.entries[q] == fs.entries[q]
    ensures r.Ok? && !Exists(fs, p) ==> r.value.entries[p] == Dir({})
    ensures r.Ok? && !Exists(fs, p) && ParentListed(fs, p) ==>
              r.value.entries[Split(p).0] == Dir(fs.entries[Split(p).0].children + {Split(p).1})
    ensures r.Ok? && !ParentListed(fs, p) && Split(p).0 in fs.entries ==> r.value.entries[Split(p).0] == fs.entries[Split(p).0]
    ensures r.Ok? ==> Keeps(fs, r.value)
  {
    if p == [] then Err(FileNotFound(p))
    else if p in fs.entries then
      if fs.entries[p].Dir? then Ok(fs) else Err(FileExists(p))
    else if ParentIsFile(fs, p) then Err(NotADirectory(p))
    else
      var (head, tail) := Split(p);
      var added := fs.entries[p := Dir({})];
      if ParentListed(fs, p) then Ok(FileSystem(added[head := Dir(fs.entries[head].children + {tail})]))
      else Ok(FileSystem(added))
  }

  /** The new directory gets a name in an existing parent directory. */
  predicate ParentListed(fs: FileSystem, p: Path) {
    Split(p).1 != [] && Split(p).0 in fs.entries && fs.entries[Split(p).0].Dir?
  }

  /** The parent of the new directory is a file, so it cannot be created there. */
  predicate ParentIsFile(fs: FileSystem, p: Path) {
    Split(p).0 != [] && Split(p).0 in fs.entries && fs.entries[Split(p).0].File?
  }

  /**
   * `open(os.path.join(dir, name), 'wt')` followed by a write, in a directory
   * that exists: the file is created or truncated and the directory then
   * lists `name`. Opening an existing directory for writing fails.
   */
  function WriteFile(fs: FileSystem, dir: Path, name: string): (r: Result<FileSystem>)
    requires Exists(fs, dir) && fs.entries[dir].Dir?
    ensures r.Err? <==> Exists(fs, Join(dir, name)) && fs.entries[Join(dir, name)].Dir?
    ensures r.Err? ==> r.error == IsADirectory(Join(dir, name))
    ensures r.Ok? ==> Exists(r.value, Join(dir, name)) && r.value.entries[Join(dir, name)] == File
    ensures r.Ok? ==> dir in r.value.entries && r.value.entries[dir] == Dir(fs.entries[dir].children + {name})
    ensures r.Ok? ==> forall q :: q != dir && q != Join(dir, name) && q in fs.entries ==>
                                q in r.value.entries && r.value.entries[q] == fs.entries[q]
    ensures r.Ok? ==> Keeps(fs, r.value)
  {
    var path := Join(dir, name);
    if path in fs.entries && fs.entries[path].Dir? then Err(IsADirectory(path))
    else
      var children := fs.entries[dir].children;
      Ok(FileSystem(fs.entries[path := File][dir := Dir(children + {name})]))
  }
}
