/** The part of the file system the generator touches: whole text files
    keyed by path, and the set of existing directories. */
module FileSystem {
  import opened Errors
  import opened Paths

  datatype Fs = Fs(files: map<string, string>, dirs: set<string>)

  /** The directories `os.makedirs(d)` leaves in place: `d` and every
      directory above it. */
  function MakeDirs(d: string): (r: set<string>)
    ensures d != [] ==> d in r
  {
    assert d[..|d|] == d;
    set i | 0 < i <= |d| && (i == |d| || d[i] == '/') :: d[..i]
  }

  /** `os.path.exists(d)` for a directory; the empty path never exists. */
  predicate DirExists(fs: Fs, d: string) {
    d != [] && d in fs.dirs
  }

  /** The drivers' `if not os.path.exists(d): os.makedirs(d)` for the parent
      `d` of file `f`. Creation is skipped for an existing parent, and a path
      with no directory part fails, as `os.makedirs('')` does. */
  function EnsureParent(fs: Fs, f: string): (r: Result<Fs>)
    ensures r.Ok? <==> Dirname(f) != []
    ensures r.Err? ==> r.error == NoSuchDirectory
    ensures r.Ok? ==> r.value.files == fs.files && fs.dirs <= r.value.dirs && Dirname(f) in r.value.dirs
    ensures DirExists(fs, Dirname(f)) ==> r == Ok(fs)
  {
    var d := Dirname(f);
    if DirExists(fs, d) then Ok(fs)
    else if d == [] then Err(NoSuchDirectory)
    else Ok(fs.(dirs := fs.dirs + MakeDirs(d)))
  }

  /** Going from `a` to `b` removed no directory, and every file `b` adds
      sits in a directory of `b`. */
  predicate Grown(a: Fs, b: Fs) {
    && a.dirs <= b.dirs
    && (forall p :: p in b.files && p !in a.files ==> Dirname(p) in b.dirs)
  }

  /** Two such steps make one. */
  lemma GrownTrans(a: Fs, b: Fs, c: Fs)
    requires Grown(a, b) && Grown(b, c)
    ensures Grown(a, c)
  {
  }

  /** `open(f, 'w')` followed by writing `text` and closing. */
  function Put(fs: Fs, f: string, text: string): Fs {
    fs.(files := fs.files[f := text])
  }

  /** Is `p` the directory `root` or a path inside it? */
  predicate Under(p: string, root: string) {
    p == root || (|p| > |root| && p[..|root| + 1] == root + "/")
  }

  /** A regular file sits where `os.makedirs(d)` needs a folder above `d`. */
  predicate FileAbove(fs: Fs, d: string) {
    exists i :: 0 < i < |d| && d[i] == '/' && d[..i] in fs.files
  }

  /** `os.makedirs(d)`: fails with FileExistsError when `d` itself already
      exists, as a directory or as a file, and otherwise with
      NotADirectoryError when a folder above it is a regular file. */
  function MakeNewDirs(fs: Fs, d: string): (r: Result<Fs>)
    ensures r.Err? <==> d in fs.dirs || d in fs.files || FileAbove(fs, d)
    ensures d in fs.dirs || d in fs.files ==> r == Err(FileExists)
    ensures d !in fs.dirs && d !in fs.files && FileAbove(fs, d) ==> r == Err(NotADirectory)
    ensures r.Ok? ==> r.value.files == fs.files && fs.dirs <= r.value.dirs && (d != [] ==> d in r.value.dirs)
  {
    if d in fs.dirs || d in fs.files then Err(FileExists)
    else if FileAbove(fs, d) then Err(NotADirectory)
    else Ok(fs.(dirs := fs.dirs + MakeDirs(d)))
  }

  /** A regular file `x` above the folder to make stops `os.makedirs`. */
  lemma MakeDirsThroughFile()
    ensures MakeNewDirs(Fs(map["x" := ""], {}), "x/y_rp/assets") == Err(NotADirectory)
  {
    var d := "x/y_rp/assets";
    assert d[1] == '/' && d[..1] == "x";
  }

  /** `shutil.rmtree(root, ignore_errors=True)`: everything at or below
      `root` disappears and everything else is kept as it was. */
  function RemoveTree(fs: Fs, root: string): (r: Fs)
    ensures forall p :: p in r.files <==> p in fs.files && !Under(p, root)
    ensures forall p :: p in r.files ==> r.files[p] == fs.files[p]
    ensures forall d :: d in r.dirs <==> d in fs.dirs && !Under(d, root)
  {
    Fs(map p | p in fs.files && !Under(p, root) :: fs.files[p],
       set d | d in fs.dirs && !Under(d, root))
  }

  /** Removing a tree twice is removing it once: nothing at or below
      `root` is left for the second call. */
  lemma RemoveTreeIdempotent(fs: Fs, root: string)
    ensures RemoveTree(RemoveTree(fs, root), root) == RemoveTree(fs, root)
  {
    var once := RemoveTree(fs, root);
    var twice := RemoveTree(once, root);
    assert twice.files == once.files;
    assert twice.dirs == once.dirs;
  }

  /** A tree with nothing at or below `root` is left exactly as it was. */
  lemma RemoveTreeAbsent(fs: Fs, root: string)
    requires forall p :: p in fs.files ==> !Under(p, root)
    requires forall d :: d in fs.dirs ==> !Under(d, root)
    ensures RemoveTree(fs, root) == fs
  {
    var r := RemoveTree(fs, root);
    assert r.files == fs.files;
    assert r.dirs == fs.dirs;
  }

  /** Removing a tree undoes a write below it: writing a file under `root`
      and then removing `root` gives the same files as removing it alone. */
  lemma RemoveTreeForgetsWrite(fs: Fs, root: string, f: string, text: string)
    requires Under(f, root)
    ensures RemoveTree(Put(fs, f, text), root) == RemoveTree(fs, root)
  {
    var a := RemoveTree(Put(fs, f, text), root);
    var b := RemoveTree(fs, root);
    assert a.files == b.files;
  }
}
