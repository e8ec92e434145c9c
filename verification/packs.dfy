/** What the two pack generators share: the settings they read, the status
    they return, and the check that refuses to delete a directory that may
    not be an earlier pack. */
module Packs {
  import opened Errors
  import opened Paths
  import opened FileSystem

  /** The result codes `Status` of the generators. */
  datatype Status = Success | BadUnicodeChar | PackDirInUse

  /** How a generator call ends: it returns a status, or an exception it does
      not catch escapes it. */
  datatype Outcome = Returned(status: Status) | Raised(error: Error)

  /** The `except UnicodeEncodeError` and `except FileExistsError` clauses
      around pack writing; any other failure escapes. */
  function Catch(err: Option<Error>): (o: Outcome)
    ensures o == Returned(Success) <==> err.None?
    ensures o == Returned(BadUnicodeChar) <==> err == Some(Unencodable)
    ensures o == Returned(PackDirInUse) <==> err == Some(FileExists)
    ensures o.Raised? <==> err.Some? && !Caught(err.value)
    ensures o.Raised? ==> o.error == err.value
  {
    match err
    case None => Returned(Success)
    case Some(Unencodable) => Returned(BadUnicodeChar)
    case Some(FileExists) => Returned(PackDirInUse)
    case Some(e) => Raised(e)
  }

  /** The keys of `user_settings` the generators read; `None` is an absent
      key. `dp` and `rp` are the entries of its `version` dictionary. */
  datatype Settings = Settings(
    dp: Option<int>,
    rp: Option<int>,
    offset: Option<int>,
    name: Option<string>)

  /** The values the generators take from `Constants` of
      src/definitions.py, which is not part of this model: the default pack
      format and name, the folder suffixes, and the resource pack
      description as a function of the number of discs. */
  datatype Constants = Constants(
    defaultPackFormat: int,
    defaultPackName: string,
    datapackSuffix: string,
    resourcepackSuffix: string,
    describe: nat -> string)

  /** `d.get(key, default)`. */
  function OrElse<T>(o: Option<T>, default: T): (r: T)
    ensures o.Some? ==> r == o.value
    ensures o.None? ==> r == default
  {
    if o.Some? then o.value else default
  }

  /** The `custom_model_data` offset; 0 when unset. */
  function Offset(s: Settings): int {
    OrElse(s.offset, 0)
  }

  /** The pack folder: the chosen or default name followed by the suffix. */
  function PackDir(s: Settings, c: Constants, suffix: string): (dir: string)
    ensures s.name.Some? ==> dir == s.name.value + suffix
    ensures s.name.None? ==> dir == c.defaultPackName + suffix
  {
    OrElse(s.name, c.defaultPackName) + suffix
  }

  /** The marker file that identifies a folder as a pack. */
  function Mcmeta(dir: string): string {
    Join2(dir, "pack.mcmeta")
  }

  /** An existing folder without `pack.mcmeta` may belong to something
      else, so it must not be deleted. */
  predicate Foreign(fs: Fs, dir: string) {
    DirExists(fs, dir) && Mcmeta(dir) !in fs.files
  }

  /** Removing an earlier pack before writing a new one: a foreign folder
      raises FileExistsError and is left alone; a folder with
      `pack.mcmeta` is removed with everything below it and nothing else;
      an absent folder needs nothing. Afterwards the folder is gone. */
  function ClearPackDir(fs: Fs, dir: string): (r: Result<Fs>)
    ensures r.Err? <==> Foreign(fs, dir)
    ensures r.Err? ==> r.error == FileExists
    ensures r.Ok? ==> !DirExists(r.value, dir) && !Foreign(r.value, dir)
    ensures !DirExists(fs, dir) ==> r == Ok(fs)
    ensures r.Ok? && DirExists(fs, dir) ==>
      && (forall p :: p in r.value.files ==> !Under(p, dir))
      && (forall p :: p in r.value.dirs ==> !Under(p, dir))
    ensures r.Ok? ==> forall p :: !Under(p, dir) ==>
      && (p in r.value.files <==> p in fs.files)
      && (p in r.value.files ==> r.value.files[p] == fs.files[p])
      && (p in r.value.dirs <==> p in fs.dirs)
  {
    if DirExists(fs, dir) then
      if Mcmeta(dir) !in fs.files then Err(FileExists) else Ok(RemoveTree(fs, dir))
    else Ok(fs)
  }

  /** A directory name that `os.path.join` continues with exactly one `/`. */
  predicate Bare(dir: string) {
    dir != [] && dir[|dir| - 1] != '/'
  }

  /** Joining onto a bare directory a relative path gives a path below it. */
  lemma JoinUnder(dir: string, rel: string)
    requires Bare(dir) && rel != [] && rel[0] != '/'
    ensures Join2(dir, rel) == dir + "/" + rel
    ensures Under(Join2(dir, rel), dir)
  {
    assert (dir + "/" + rel)[..|dir| + 1] == dir + "/";
  }

  /** Different relative paths joined onto the same folder stay different. */
  lemma JoinInjective(dir: string, a: string, b: string)
    requires a != [] && a[0] != '/' && b != [] && b[0] != '/'
    requires Join2(dir, a) == Join2(dir, b)
    ensures a == b
  {
    var pre := if dir == [] || dir[|dir| - 1] == '/' then dir else dir + "/";
    assert Join2(dir, a) == pre + a && Join2(dir, b) == pre + b;
    assert a == (pre + a)[|pre|..];
    assert b == (pre + b)[|pre|..];
  }
}
