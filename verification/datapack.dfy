/** `generate_datapack`: discs are numbered, the pack folder is checked and
    cleared, and every descriptor of the datapack catalog is written by the
    driver its `repeat` names, until one fails. */
module Datapack {
  import opened Errors
  import opened Strings
  import opened Paths
  import opened FileSystem
  import opened Format
  import opened Formatter
  import opened Discs
  import opened PackWriter
  import opened Repeat
  import opened Numbering
  import opened Packs

  /** `f'v{major}.{minor}'`, the generator version the templates read. */
  function VersionString(major: int, minor: int): string {
    "v" + IntToString(major) + "." + IntToString(minor)
  }

  /** The version text reads back as the two numbers it was built from. */
  lemma VersionStringRoundTrip(major: int, minor: int)
    ensures var parts := Split(VersionString(major, minor)[1..], '.');
      && |parts| == 2
      && |parts[0]| >= 1 && |parts[1]| >= 1
      && (AllDigits(parts[0]) || (parts[0][0] == '-' && AllDigits(parts[0][1..])))
      && (AllDigits(parts[1]) || (parts[1][0] == '-' && AllDigits(parts[1][1..])))
      && ParseInt(parts[0]) == major && ParseInt(parts[1]) == minor
  {
    var a, b := IntToString(major), IntToString(minor);
    IntToStringRoundTrip(major);
    IntToStringRoundTrip(minor);
    NoDotInNumber(major);
    NoDotInNumber(minor);
    assert VersionString(major, minor)[1..] == a + ['.'] + b;
    SplitAtSep(a, '.', b);
    SplitNoSep(b, '.');
  }

  lemma NoDotInNumber(i: int)
    ensures '.' !in IntToString(i)
  {
    IntToStringRoundTrip(i);
    var s := IntToString(i);
    if !AllDigits(s) {
      assert s == [s[0]] + s[1..];
      assert forall k :: 0 <= k < |s[1..]| ==> s[1..][k] != '.';
    } else {
      assert forall k :: 0 <= k < |s| ==> s[k] != '.';
    }
  }

  /** The names the catalog's templates read besides `entry`: the local
      variables of `generate_datapack`. */
  function DatapackContext(packFormat: int, offset: int, dir: string, major: int, minor: int, numDiscs: nat): Ctx {
    map[
      "pack_format" := VInt(packFormat),
      "offset" := VInt(offset),
      "datapack_name" := VStr(dir),
      "dp_version_str" := VStr(VersionString(major, minor)),
      "dp_num_discs" := VInt(numDiscs)]
  }

  // One descriptor ---------------------------------------------------------

  /** A descriptor as the catalog loop sees it: the driver its `repeat`
      names and the template the driver formats. */
  datatype Job = Job(repeat: PackWriter.Repeat, t: Template)

  function JobOf(d: Descriptor): Job {
    Job(d.repeat, TemplateOf(d))
  }

  /** The catalog as the loop sees it. */
  function Jobs(ds: seq<Descriptor>): (js: seq<Job>)
    ensures |js| == |ds|
    ensures forall i :: 0 <= i < |ds| ==> js[i] == JobOf(ds[i])
  {
    seq(|ds|, i requires 0 <= i < |ds| => JobOf(ds[i]))
  }

  /** The failure the driver of `j` ends with, if any. */
  function DriverError(j: Job, ctx: Ctx, es: seq<DiscEntry>): Option<Error> {
    var t := j.t;
    match j.repeat
    case Single =>
      if Target(t, ctx).Err? then Some(Target(t, ctx).error)
      else if t.body(ctx).Err? then Some(t.body(ctx).error)
      else None
    case Copy =>
      var k := FirstFailure(t, ctx, es);
      if k < |es| then Some(EntryError(t, ctx, es[k])) else None
    case CopyWithin =>
      if Target(t, ctx).Err? then Some(Target(t, ctx).error)
      else
        var k := FirstBodyFailure(t, ctx, es);
        if k < |es| then Some(EntryBody(t, ctx, es[k]).error) else None
    case Unrecognised(_) => None
  }

  /** The files once the driver of `j` has run, whether or not it failed. */
  function DriverFiles(files: map<string, string>, j: Job, ctx: Ctx, es: seq<DiscEntry>): map<string, string> {
    var t := j.t;
    match j.repeat
    case Single =>
      if Target(t, ctx).Ok? then files[Target(t, ctx).value := Written(t.body(ctx))] else files
    case Copy =>
      Apply(files, CopyWrites(t, ctx, es, OpenedCount(t, ctx, es)))
    case CopyWithin =>
      if Target(t, ctx).Ok? then
        files[Target(t, ctx).value := Concat(Bodies(t, ctx, es, FirstBodyFailure(t, ctx, es)))]
      else files
    case Unrecognised(_) => files
  }

  /** A driver fails only in formatting a path or a body, or in making a
      parent directory for a path without one; never with FileExistsError
      or UnicodeEncodeError. */
  lemma DriverNotCaught(d: Descriptor, ctx: Ctx, es: seq<DiscEntry>)
    ensures DriverError(JobOf(d), ctx, es).Some? ==> !Caught(DriverError(JobOf(d), ctx, es).value)
  {
    var t := TemplateOf(d);
    FmtPathNotCaught(ctx, d.path);
    PackFileBodyNotCaught(d, ctx);
    match d.repeat
    case Copy =>
      var k := FirstFailure(t, ctx, es);
      if k < |es| {
        FmtPathNotCaught(WithEntry(ctx, es[k]), d.path);
        PackFileBodyNotCaught(d, WithEntry(ctx, es[k]));
      }
    case CopyWithin =>
      var k := FirstBodyFailure(t, ctx, es);
      if k < |es| {
        PackFileBodyNotCaught(d, WithEntry(ctx, es[k]));
      }
    case _ =>
  }

  /** The `if`/`elif` dispatch on `dp_file['repeat']`: an unrecognised value
      writes nothing. */
  method WriteDescriptor(fs: Fs, j: Job, ctx: Ctx, es: seq<DiscEntry>) returns (out: Fs, err: Option<Error>)
    ensures err == DriverError(j, ctx, es)
    ensures out.files == DriverFiles(fs.files, j, ctx, es)
    ensures Grown(fs, out)
  {
    match j.repeat {
      case Single =>
        out, err := WriteSingle(fs, j.t, ctx);
      case Copy =>
        out, err := WriteCopy(fs, j.t, ctx, es);
      case CopyWithin =>
        out, err := WriteCopyWithin(fs, j.t, ctx, es);
      case Unrecognised(_) =>
        out, err := fs, None;
    }
  }

  // The catalog ------------------------------------------------------------

  /** Every driver of the catalog, as a function of the files it starts
      from and the descriptor. */
  function Drive(ctx: Ctx, es: seq<DiscEntry>): (map<string, string>, Job) -> map<string, string> {
    (files, j) => DriverFiles(files, j, ctx, es)
  }

  /** The failure of every driver of the catalog. */
  function Fail(ctx: Ctx, es: seq<DiscEntry>): Job -> Option<Error> {
    j => DriverError(j, ctx, es)
  }

  // What follows holds whatever the drivers do, so it is stated for any
  // `run` and `fail`.

  /** The catalog loop: each driver runs on the files the earlier ones left,
      and the first failure ends the loop. Gives the files and the failure. */
  function CatalogRun(files: map<string, string>, js: seq<Job>,
                      run: (map<string, string>, Job) -> map<string, string>, fail: Job -> Option<Error>): (map<string, string>, Option<Error>)
    decreases |js|
  {
    if js == [] then (files, None)
    else if fail(js[0]).Some? then (run(files, js[0]), fail(js[0]))
    else CatalogRun(run(files, js[0]), js[1..], run, fail)
  }

  /** The failure of each descriptor's driver, in catalog order. */
  function DriverErrors(js: seq<Job>, fail: Job -> Option<Error>): (errs: seq<Option<Error>>)
    ensures |errs| == |js|
    ensures forall i :: 0 <= i < |js| ==> errs[i] == fail(js[i])
  {
    seq(|js|, i requires 0 <= i < |js| => fail(js[i]))
  }

  /** The index of the first failure of a list, or its length. */
  function FirstSome(errs: seq<Option<Error>>): (k: nat)
    ensures k <= |errs|
    ensures forall i :: 0 <= i < k ==> errs[i].None?
    ensures k < |errs| ==> errs[k].Some?
    decreases |errs|
  {
    if errs == [] then 0
    else if errs[0].Some? then 0
    else 1 + FirstSome(errs[1..])
  }

  /** The failure of the first failing descriptor, if any. */
  function CatalogError(js: seq<Job>, fail: Job -> Option<Error>): Option<Error> {
    var k := FirstSome(DriverErrors(js, fail));
    if k < |js| then fail(js[k]) else None
  }

  /** The number of descriptors whose driver runs: all of them, or up to and
      including the first that fails. */
  function RunCount(js: seq<Job>, fail: Job -> Option<Error>): (n: nat)
    ensures n <= |js|
  {
    var k := FirstSome(DriverErrors(js, fail));
    if k < |js| then k + 1 else k
  }

  /** The files once the drivers of the first `n` descriptors have run, one
      after the other. */
  function CatalogFiles(files: map<string, string>, js: seq<Job>, run: (map<string, string>, Job) -> map<string, string>, n: nat): map<string, string>
    requires n <= |js|
    decreases n
  {
    if n == 0 then files else CatalogFiles(run(files, js[0]), js[1..], run, n - 1)
  }

  /** The loop ends with the first failing descriptor's error, after
      running every driver up to and including it, and with no error after
      running them all when none fails. */
  lemma {:induction false} CatalogRunMatches(files: map<string, string>, js: seq<Job>,
                                            run: (map<string, string>, Job) -> map<string, string>, fail: Job -> Option<Error>)
    ensures CatalogRun(files, js, run, fail).1 == CatalogError(js, fail)
    ensures CatalogRun(files, js, run, fail).0 == CatalogFiles(files, js, run, RunCount(js, fail))
    decreases |js|
  {
    if js != [] {
      var errs := DriverErrors(js, fail);
      if errs[0].None? {
        var rest := js[1..];
        assert errs[1..] == DriverErrors(rest, fail);
        assert FirstSome(errs) == 1 + FirstSome(errs[1..]);
        CatalogRunMatches(run(files, js[0]), rest, run, fail);
      }
    }
  }

  /** The catalog fails only with an error no `except` clause catches. */
  lemma CatalogNotCaught(ds: seq<Descriptor>, ctx: Ctx, es: seq<DiscEntry>)
    ensures CatalogError(Jobs(ds), Fail(ctx, es)).Some? ==> !Caught(CatalogError(Jobs(ds), Fail(ctx, es)).value)
  {
    var js := Jobs(ds);
    var k := FirstSome(DriverErrors(js, Fail(ctx, es)));
    if k < |js| {
      assert js[k] == JobOf(ds[k]);
      DriverNotCaught(ds[k], ctx, es);
    }
  }

  /** One turn of the catalog loop: the next descriptor's driver runs on
      the files the earlier ones left; a failure ends the loop there, and
      otherwise the rest of the loop runs on from the new files. */
  method RunNext(fs: Fs, cur: Fs, js: seq<Job>, ctx: Ctx, es: seq<DiscEntry>, i: nat) returns (next: Fs, e: Option<Error>)
    requires i < |js| && Grown(fs, cur)
    ensures e.Some? ==> CatalogRun(cur.files, js[i..], Drive(ctx, es), Fail(ctx, es)) == (next.files, e)
    ensures e.None? ==>
      CatalogRun(next.files, js[i + 1..], Drive(ctx, es), Fail(ctx, es)) == CatalogRun(cur.files, js[i..], Drive(ctx, es), Fail(ctx, es))
    ensures Grown(fs, next)
  {
    next, e := WriteDescriptor(cur, js[i], ctx, es);
    GrownTrans(fs, cur, next);
    assert js[i..][0] == js[i] && js[i..][1..] == js[i + 1..];
  }

  /** `for dp_file in dp_file_list`, as the loop it is. */
  method RunCatalog(fs: Fs, js: seq<Job>, ctx: Ctx, es: seq<DiscEntry>) returns (out: Fs, err: Option<Error>)
    ensures (out.files, err) == CatalogRun(fs.files, js, Drive(ctx, es), Fail(ctx, es))
    ensures Grown(fs, out)
  {
    out := fs;
    var i := 0;
    assert js[0..] == js;
    while i < |js|
      invariant 0 <= i <= |js|
      invariant CatalogRun(out.files, js[i..], Drive(ctx, es), Fail(ctx, es)) == CatalogRun(fs.files, js, Drive(ctx, es), Fail(ctx, es))
      invariant Grown(fs, out)
    {
      var e;
      out, e := RunNext(fs, out, js, ctx, es, i);
      if e.Some? {
        return out, e;
      }
      i := i + 1;
    }
    assert js[i..] == [];
    err := None;
  }

  /** `for dp_file in dp_file_list`: each descriptor in catalog order, the
      first failure leaving the loop; the files the drivers did not create
      keep their directories. */
  method WriteCatalog(fs: Fs, js: seq<Job>, ctx: Ctx, es: seq<DiscEntry>) returns (out: Fs, err: Option<Error>)
    ensures err == CatalogError(js, Fail(ctx, es))
    ensures out.files == CatalogFiles(fs.files, js, Drive(ctx, es), RunCount(js, Fail(ctx, es)))
    ensures Grown(fs, out)
  {
    out, err := RunCatalog(fs, js, ctx, es);
    CatalogRunMatches(fs.files, js, Drive(ctx, es), Fail(ctx, es));
  }

  // The generator ----------------------------------------------------------

  /** `generate_datapack(entry_list, user_settings)` up to the icon copy.
      Returns the file system, how the call ends, and the entries as the
      numbering left them. A foreign pack folder is never touched and gives
      PACK_DIR_IN_USE, and that is the only way to get that status. No
      failure is reported as BAD_UNICODE_CHAR, because a Dafny string holds
      no lone surrogate, the only text UTF-8 cannot encode. */
  method GenerateDatapack(fs: Fs, catalog: seq<Descriptor>, entries: seq<DiscEntry>,
                          s: Settings, c: Constants, major: int, minor: int)
    returns (out: Fs, outcome: Outcome, numbered: seq<DiscEntry>)
    ensures |numbered| == |entries|
    ensures forall i :: 0 <= i < |entries| ==>
      numbered[i] == entries[i].(customModelData := ModelData(Offset(s), i))
    ensures var dir := PackDir(s, c, c.datapackSuffix);
      var ctx := DatapackContext(OrElse(s.dp, c.defaultPackFormat), Offset(s), dir, major, minor, |entries|);
      var js := Jobs(catalog);
      && (Foreign(fs, dir) ==> out == fs)
      && (outcome == Returned(PackDirInUse) <==> Foreign(fs, dir))
      && (!Foreign(fs, dir) ==> outcome == Catch(CatalogError(js, Fail(ctx, numbered))))
      && (!Foreign(fs, dir) ==>
            out.files == CatalogFiles(ClearPackDir(fs, dir).value.files, js, Drive(ctx, numbered), RunCount(js, Fail(ctx, numbered))))
      && outcome != Returned(BadUnicodeChar)
  {
    var offset := Offset(s);
    numbered := AssignModelData(entries, offset);
    assert forall i :: 0 <= i < |entries| ==>
      numbered[i] == entries[i].(customModelData := ModelData(offset, i)) by {
      forall i | 0 <= i < |entries|
        ensures numbered[i] == entries[i].(customModelData := ModelData(offset, i))
      {
        assert numbered[i].(customModelData := entries[i].customModelData) == entries[i];
      }
    }
    var dir := PackDir(s, c, c.datapackSuffix);
    var ctx := DatapackContext(OrElse(s.dp, c.defaultPackFormat), offset, dir, major, minor, |entries|);
    var cleared := ClearPackDir(fs, dir);
    if cleared.Err? {
      return fs, Catch(Some(cleared.error)), numbered;
    }
    var err;
    out, err := WriteCatalog(cleared.value, Jobs(catalog), ctx, numbered);
    CatalogNotCaught(catalog, ctx, numbered);
    outcome := Catch(err);
  }
}
