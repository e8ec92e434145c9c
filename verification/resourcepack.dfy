/** `generate_resourcepack` up to the asset copy: `write_rp_framework`,
    which checks and clears the pack folder, makes its directory tree and
    writes `pack.mcmeta` and `sounds.json`, and `write_item_models`, which
    writes `music_disc_11.json` and one model per disc. */
module Resourcepack {
  import opened Errors
  import opened Strings
  import opened Paths
  import opened FileSystem
  import opened JsonValue
  import opened JsonText
  import opened Discs
  import opened Repeat
  import opened Numbering
  import opened Sounds
  import opened Packs

  // Where the files go -------------------------------------------------------

  const ModelsDir := "assets/minecraft/models/item"
  const RecordsDir := "assets/minecraft/sounds/records"
  const TexturesDir := "assets/minecraft/textures/item"
  const SoundsFile := "assets/minecraft/sounds.json"

  /** A path inside the pack folder, given relative to it. */
  function InPack(dir: string, rel: string): string {
    Join2(dir, rel)
  }

  /** The file name of the item model of disc `name`. */
  function ItemName(name: string): string {
    "music_disc_" + name + ".json"
  }

  /** `music_disc_<name>.json`, opened by a relative name once `os.chdir`
      has entered the item models folder. */
  function ItemFile(dir: string, name: string): string {
    Join2(InPack(dir, ModelsDir), ItemName(name))
  }

  /** Joining one more segment continues the relative part with `/`. */
  lemma Join2Assoc(a: string, b: string, c: string)
    requires b != [] && b[0] != '/' && b[|b| - 1] != '/'
    requires c != [] && c[0] != '/'
    ensures Join2(Join2(a, b), c) == Join2(a, b + "/" + c)
  {
    assert (b + "/" + c)[0] == b[0];
    if a == [] || a[|a| - 1] == '/' {
      assert Join2(a, b) == a + b;
      assert (a + b)[|a + b| - 1] == b[|b| - 1];
      assert a + b + "/" + c == a + (b + "/" + c);
    } else {
      assert Join2(a, b) == a + "/" + b;
      assert (a + "/" + b)[|a + "/" + b| - 1] == b[|b| - 1];
      assert a + "/" + b + "/" + c == a + "/" + (b + "/" + c);
    }
  }

  /** `os.path.join(dir, a, b, c)` for plain segments is `dir` joined with
      `a/b/c`. */
  lemma Join3(dir: string, a: string, b: string, c: string)
    requires Plain(a) && Plain(b) && Plain(c)
    ensures PathJoin([dir, a, b, c]) == Join2(dir, a + "/" + b + "/" + c)
  {
    assert a[0] in a && b[0] in b && c[0] in c && b[|b| - 1] in b;
    assert [dir, a, b, c][..3] == [dir, a, b];
    assert [dir, a, b][..2] == [dir, a];
    assert [dir, a][..1] == [dir];
    assert PathJoin([dir, a]) == Join2(dir, a);
    assert PathJoin([dir, a, b]) == Join2(Join2(dir, a), b);
    assert PathJoin([dir, a, b, c]) == Join2(PathJoin([dir, a, b]), c);
    Join2Assoc(dir, a, b);
    assert (a + "/" + b)[0] == a[0];
    assert (a + "/" + b)[|a + "/" + b| - 1] == b[|b| - 1];
    Join2Assoc(dir, a + "/" + b, c);
  }

  /** `os.path.join(dir, a, b, c, d)` for plain segments is `dir` joined
      with `a/b/c/d`. */
  lemma Join4(dir: string, a: string, b: string, c: string, d: string)
    requires Plain(a) && Plain(b) && Plain(c) && Plain(d)
    ensures PathJoin([dir, a, b, c, d]) == Join2(dir, a + "/" + b + "/" + c + "/" + d)
  {
    assert [dir, a, b, c, d][..4] == [dir, a, b, c];
    assert PathJoin([dir, a, b, c, d]) == Join2(PathJoin([dir, a, b, c]), d);
    Join3(dir, a, b, c);
    var abc := a + "/" + b + "/" + c;
    assert a[0] in a && c[|c| - 1] in c && d[0] in d;
    assert abc[0] == a[0] && abc[|abc| - 1] == c[|c| - 1];
    Join2Assoc(dir, abc, d);
  }

  lemma AssetsPlain()
    ensures Plain("assets") && Plain("minecraft")
  {
  }

  /** The folders `write_rp_framework` makes and the `sounds.json` it
      writes are the files the source's joins name. */
  lemma ModelsDirJoin(dir: string)
    ensures InPack(dir, ModelsDir) == PathJoin([dir, "assets", "minecraft", "models", "item"])
  {
    AssetsPlain();
    assert Plain("models") && Plain("item");
    assert "assets" + "/" + "minecraft" + "/" + "models" + "/" + "item" == ModelsDir;
    Join4(dir, "assets", "minecraft", "models", "item");
  }

  lemma RecordsDirJoin(dir: string)
    ensures InPack(dir, RecordsDir) == PathJoin([dir, "assets", "minecraft", "sounds", "records"])
  {
    AssetsPlain();
    assert Plain("sounds") && Plain("records");
    assert "assets" + "/" + "minecraft" + "/" + "sounds" + "/" + "records" == RecordsDir;
    Join4(dir, "assets", "minecraft", "sounds", "records");
  }

  lemma TexturesDirJoin(dir: string)
    ensures InPack(dir, TexturesDir) == PathJoin([dir, "assets", "minecraft", "textures", "item"])
  {
    AssetsPlain();
    assert Plain("textures") && Plain("item");
    assert "assets" + "/" + "minecraft" + "/" + "textures" + "/" + "item" == TexturesDir;
    Join4(dir, "assets", "minecraft", "textures", "item");
  }

  lemma SoundsFileJoin(dir: string)
    ensures InPack(dir, SoundsFile) == PathJoin([dir, "assets", "minecraft", "sounds.json"])
  {
    AssetsPlain();
    assert Plain("sounds.json");
    assert "assets" + "/" + "minecraft" + "/" + "sounds.json" == SoundsFile;
    Join3(dir, "assets", "minecraft", "sounds.json");
  }

  /** An item model lies in the pack folder, below the item models folder. */
  lemma ItemFileInPack(dir: string, name: string)
    ensures ItemFile(dir, name) == InPack(dir, ModelsDir + "/" + ItemName(name))
  {
    assert ItemName(name)[0] == 'm';
    assert ModelsDir[0] == 'a' && ModelsDir[|ModelsDir| - 1] == 'm';
    Join2Assoc(dir, ModelsDir, ItemName(name));
  }

  // The files' contents ------------------------------------------------------

  /** `pack.mcmeta` of the resource pack. */
  function PackMcmetaJson(packFormat: int, description: string): Json {
    JObj([("pack", JObj([("pack_format", JNum(packFormat)), ("description", JStr(description))]))])
  }

  /** The two files `write_rp_framework` writes, in order. */
  function FrameworkWrites(dir: string, names: seq<string>, packFormat: int, description: string): seq<(string, string)> {
    [(Mcmeta(dir), Dumps(PackMcmetaJson(packFormat, description))),
     (InPack(dir, SoundsFile), Dumps(SoundsJson(names)))]
  }

  /** One item model per name, in order. */
  function ModelWrites(dir: string, names: seq<string>): (ws: seq<(string, string)>)
    ensures |ws| == |names|
    ensures forall i :: 0 <= i < |names| ==> ws[i] == (ItemFile(dir, names[i]), Dumps(ItemModel(names[i])))
  {
    seq(|names|, i requires 0 <= i < |names| => (ItemFile(dir, names[i]), Dumps(ItemModel(names[i]))))
  }

  /** The files `write_item_models` writes, in order: `music_disc_11.json`
      first, then one model per name. */
  function ItemWrites(dir: string, names: seq<string>, offset: int): seq<(string, string)> {
    [(ItemFile(dir, "11"), Dumps(MusicDisc11(names, offset)))] + ModelWrites(dir, names)
  }

  /** All the writes of the resource pack, in order. */
  function PackWrites(dir: string, names: seq<string>, packFormat: int, description: string, offset: int): seq<(string, string)> {
    FrameworkWrites(dir, names, packFormat, description) + ItemWrites(dir, names, offset)
  }

  /** Different discs have different item model files. */
  lemma ItemFileInjective(dir: string, a: string, b: string)
    ensures ItemFile(dir, a) == ItemFile(dir, b) ==> a == b
  {
    if ItemFile(dir, a) == ItemFile(dir, b) {
      assert ItemName(a)[0] == 'm' && ItemName(b)[0] == 'm';
      JoinInjective(InPack(dir, ModelsDir), ItemName(a), ItemName(b));
      assert a == ItemName(a)[11..|ItemName(a)| - 5];
      assert b == ItemName(b)[11..|ItemName(b)| - 5];
    }
  }

  /** No item model overwrites `pack.mcmeta` or `sounds.json`, and those two
      are different files. */
  lemma PackFilesDistinct(dir: string, name: string)
    ensures Mcmeta(dir) != InPack(dir, SoundsFile)
    ensures ItemFile(dir, name) != Mcmeta(dir)
    ensures ItemFile(dir, name) != InPack(dir, SoundsFile)
  {
    var rel := ModelsDir + "/" + ItemName(name);
    ItemFileInPack(dir, name);
    assert rel[0] == 'a' && rel[17] == 'm';
    assert "pack.mcmeta"[0] == 'p' && SoundsFile[0] == 'a' && SoundsFile[17] == 's';
    if Mcmeta(dir) == InPack(dir, SoundsFile) {
      JoinInjective(dir, "pack.mcmeta", SoundsFile);
    }
    if ItemFile(dir, name) == Mcmeta(dir) {
      JoinInjective(dir, rel, "pack.mcmeta");
    }
    if ItemFile(dir, name) == InPack(dir, SoundsFile) {
      JoinInjective(dir, rel, SoundsFile);
    }
  }

  /** After the resource pack's writes `pack.mcmeta` holds the pack format
      and description, and `sounds.json` one sound event per disc. */
  lemma PackFramework(base: map<string, string>, dir: string, names: seq<string>, packFormat: int, description: string, offset: int)
    ensures var m := Apply(base, PackWrites(dir, names, packFormat, description, offset));
      && Mcmeta(dir) in m && m[Mcmeta(dir)] == Dumps(PackMcmetaJson(packFormat, description))
      && InPack(dir, SoundsFile) in m && m[InPack(dir, SoundsFile)] == Dumps(SoundsJson(names))
  {
    var ws := PackWrites(dir, names, packFormat, description, offset);
    PackFilesDistinct(dir, "11");
    forall j | 2 < j < |ws|
      ensures ws[j].0 != Mcmeta(dir) && ws[j].0 != InPack(dir, SoundsFile)
    {
      assert ws[j] == ModelWrites(dir, names)[j - 3];
      PackFilesDistinct(dir, names[j - 3]);
    }
    ApplyLastWins(base, ws, 0);
    ApplyLastWins(base, ws, 1);
  }

  /** Every disc's model file holds its item model, whatever other disc
      shares its name; this includes a disc named `11`, whose model replaces
      the override list. */
  lemma PackItemModels(base: map<string, string>, dir: string, names: seq<string>, packFormat: int, description: string, offset: int, i: nat)
    requires i < |names|
    ensures var m := Apply(base, PackWrites(dir, names, packFormat, description, offset));
      ItemFile(dir, names[i]) in m && m[ItemFile(dir, names[i])] == Dumps(ItemModel(names[i]))
  {
    var head := FrameworkWrites(dir, names, packFormat, description) + [(ItemFile(dir, "11"), Dumps(MusicDisc11(names, offset)))];
    var ms := ModelWrites(dir, names);
    assert PackWrites(dir, names, packFormat, description, offset) == head + ms;
    ApplyAppend(base, head, ms);
    forall j | 0 <= j < |ms| && ms[j].0 == ItemFile(dir, names[i])
      ensures ms[j].1 == Dumps(ItemModel(names[i]))
    {
      ItemFileInjective(dir, names[j], names[i]);
    }
    assert ms[i].0 == ItemFile(dir, names[i]);
    ApplySame(Apply(base, head), ms, ItemFile(dir, names[i]), Dumps(ItemModel(names[i])));
  }

  /** `music_disc_11.json` keeps the override list exactly when no disc is
      named `11`; otherwise the model of that disc replaces it. */
  lemma PackMusicDisc11(base: map<string, string>, dir: string, names: seq<string>, packFormat: int, description: string, offset: int)
    ensures var m := Apply(base, PackWrites(dir, names, packFormat, description, offset));
      && ItemFile(dir, "11") in m
      && ("11" !in names ==> m[ItemFile(dir, "11")] == Dumps(MusicDisc11(names, offset)))
      && ("11" in names ==> m[ItemFile(dir, "11")] == Dumps(ItemModel("11")))
  {
    var ws := PackWrites(dir, names, packFormat, description, offset);
    if "11" in names {
      var i :| 0 <= i < |names| && names[i] == "11";
      PackItemModels(base, dir, names, packFormat, description, offset, i);
    } else {
      forall j | 2 < j < |ws|
        ensures ws[j].0 != ws[2].0
      {
        assert ws[j] == ModelWrites(dir, names)[j - 3];
        ItemFileInjective(dir, names[j - 3], "11");
      }
      ApplyLastWins(base, ws, 2);
    }
  }

  /** Nothing outside a bare pack folder is written. */
  lemma PackWritesInside(dir: string, names: seq<string>, packFormat: int, description: string, offset: int)
    requires Bare(dir)
    ensures forall j :: 0 <= j < |PackWrites(dir, names, packFormat, description, offset)| ==>
      Under(PackWrites(dir, names, packFormat, description, offset)[j].0, dir)
  {
    var ws := PackWrites(dir, names, packFormat, description, offset);
    JoinUnder(dir, "pack.mcmeta");
    JoinUnder(dir, SoundsFile);
    forall j | 2 <= j < |ws| ensures Under(ws[j].0, dir) {
      var n := if j == 2 then "11" else names[j - 3];
      assert ws[j].0 == ItemFile(dir, n);
      ItemFileInPack(dir, n);
      JoinUnder(dir, ModelsDir + "/" + ItemName(n));
    }
  }

  /** A path outside a bare pack folder keeps its old content, or stays
      absent, after the first `n` of the resource pack's writes, whether the
      run finished or stopped early. */
  lemma PackOutside(base: map<string, string>, dir: string, names: seq<string>, packFormat: int, description: string, offset: int, p: string, n: nat)
    requires Bare(dir) && !Under(p, dir)
    requires n <= |PackWrites(dir, names, packFormat, description, offset)|
    ensures var m := Apply(base, PackWrites(dir, names, packFormat, description, offset)[..n]);
      && (p in m <==> p in base)
      && (p in base ==> m[p] == base[p])
  {
    var all := PackWrites(dir, names, packFormat, description, offset);
    var ws := all[..n];
    PackWritesInside(dir, names, packFormat, description, offset);
    assert forall j :: 0 <= j < |ws| ==> ws[j] == all[j];
    assert forall j :: 0 <= j < |ws| ==> ws[j].0 != p;
    ApplyDomain(base, ws, p);
    if p in base {
      ApplyUntouched(base, ws, p);
    }
  }

  /** So the pack writes, after a removed earlier pack, leave every file
      outside a bare pack folder as it was before the removal. */
  lemma PackKeepsOutside(fs: Fs, m: map<string, string>, dir: string, names: seq<string>, packFormat: int, description: string, offset: int, n: nat)
    requires Bare(dir) && !Foreign(fs, dir)
    requires n <= |PackWrites(dir, names, packFormat, description, offset)|
    requires m == Apply(ClearPackDir(fs, dir).value.files, PackWrites(dir, names, packFormat, description, offset)[..n])
    ensures forall p :: !Under(p, dir) ==>
      && (p in m <==> p in fs.files)
      && (p in fs.files ==> m[p] == fs.files[p])
  {
    forall p | !Under(p, dir)
      ensures (p in m <==> p in fs.files) && (p in fs.files ==> m[p] == fs.files[p])
    {
      PackOutside(ClearPackDir(fs, dir).value.files, dir, names, packFormat, description, offset, p, n);
    }
  }

  // The writers --------------------------------------------------------------

  /** Nothing exists at or below `dir`. */
  predicate Vacant(fs: Fs, dir: string) {
    && (forall p :: p in fs.files ==> !Under(p, dir))
    && (forall p :: p in fs.dirs ==> !Under(p, dir))
  }

  /** A file system as an operating system keeps it: when the pack folder
      does not exist, nothing exists below it either. */
  predicate Settled(fs: Fs, dir: string) {
    DirExists(fs, dir) || Vacant(fs, dir)
  }

  /** Every folder `os.makedirs(d)` adds is `d` or a folder above it. */
  lemma MadeDirPrefix(d: string, x: string)
    requires x in MakeDirs(d)
    ensures |x| <= |d| && x == d[..|x|]
  {
  }

  /** In a vacant pack folder the three `os.makedirs` calls find nothing in
      their way: none of them raises FileExistsError. */
  lemma TreeFresh(fs: Fs, dir: string)
    requires Bare(dir) && Vacant(fs, dir)
    ensures InPack(dir, ModelsDir) !in fs.dirs && InPack(dir, ModelsDir) !in fs.files
    ensures InPack(dir, RecordsDir) !in fs.dirs + MakeDirs(InPack(dir, ModelsDir))
    ensures InPack(dir, RecordsDir) !in fs.files
    ensures InPack(dir, TexturesDir) !in fs.dirs + MakeDirs(InPack(dir, ModelsDir)) + MakeDirs(InPack(dir, RecordsDir))
    ensures InPack(dir, TexturesDir) !in fs.files
  {
    var m, r, t := InPack(dir, ModelsDir), InPack(dir, RecordsDir), InPack(dir, TexturesDir);
    JoinUnder(dir, ModelsDir);
    JoinUnder(dir, RecordsDir);
    JoinUnder(dir, TexturesDir);
    if r in MakeDirs(m) {
      MadeDirPrefix(m, r);
    }
    if t in MakeDirs(m) {
      MadeDirPrefix(m, t);
    }
    if t in MakeDirs(r) {
      MadeDirPrefix(r, t);
    }
  }

  /** On the way to a folder inside a bare pack folder that has no file at
      or below it, the only regular files in the way are those above the
      pack folder. */
  lemma FileAboveInPack(fs: Fs, dir: string, rel: string)
    requires Bare(dir) && rel != [] && rel[0] != '/'
    requires forall p :: p in fs.files ==> !Under(p, dir)
    ensures FileAbove(fs, InPack(dir, rel)) <==> FileAbove(fs, dir)
  {
    var d := InPack(dir, rel);
    JoinUnder(dir, rel);
    forall i | |dir| <= i < |d|
      ensures Under(d[..i], dir)
    {
      if i > |dir| {
        assert d[..i][..|dir| + 1] == dir + "/";
      } else {
        assert d[..i] == dir;
      }
    }
    forall i | 0 < i < |dir|
      ensures d[i] == dir[i] && d[..i] == dir[..i]
    {
    }
  }

  /** Removing an earlier pack removes no file above the pack folder. */
  lemma FileAboveCleared(fs: Fs, dir: string)
    requires !Foreign(fs, dir)
    ensures FileAbove(ClearPackDir(fs, dir).value, dir) <==> FileAbove(fs, dir)
  {
    var c := ClearPackDir(fs, dir).value;
    forall i | 0 < i < |dir|
      ensures dir[..i] in c.files <==> dir[..i] in fs.files
    {
      assert !Under(dir[..i], dir);
    }
  }

  /** `write_rp_framework`: the folder check, the three `os.makedirs`
      calls, then `pack.mcmeta` and `sounds.json`. FileExistsError comes
      from the check or from a folder that is already there;
      NotADirectoryError from a regular file at a folder above one that
      `os.makedirs` makes. */
  method WriteFramework(fs: Fs, dir: string, names: seq<string>, packFormat: int, description: string)
    returns (out: Fs, err: Option<Error>)
    ensures err.None? || err == Some(FileExists) || err == Some(NotADirectory)
    ensures Foreign(fs, dir) ==> out == fs && err == Some(FileExists)
    ensures Bare(dir) && Settled(fs, dir) ==> (err == Some(FileExists) <==> Foreign(fs, dir))
    ensures Bare(dir) && Settled(fs, dir) ==> (err == Some(NotADirectory) <==> !Foreign(fs, dir) && FileAbove(fs, dir))
    ensures err.Some? && !Foreign(fs, dir) ==> out.files == ClearPackDir(fs, dir).value.files
    ensures err.None? ==>
      && out.files == Apply(ClearPackDir(fs, dir).value.files, FrameworkWrites(dir, names, packFormat, description))
      && InPack(dir, ModelsDir) in out.dirs && InPack(dir, RecordsDir) in out.dirs && InPack(dir, TexturesDir) in out.dirs
  {
    var cleared := ClearPackDir(fs, dir);
    if cleared.Err? {
      return fs, Some(cleared.error);
    }
    out := cleared.value;
    if Bare(dir) && Settled(fs, dir) {
      TreeFresh(out, dir);
      FileAboveCleared(fs, dir);
      FileAboveInPack(out, dir, ModelsDir);
      FileAboveInPack(out, dir, RecordsDir);
      FileAboveInPack(out, dir, TexturesDir);
    }
    var made := MakeNewDirs(out, InPack(dir, ModelsDir));
    if made.Err? {
      return out, Some(made.error);
    }
    out := made.value;
    made := MakeNewDirs(out, InPack(dir, RecordsDir));
    if made.Err? {
      return out, Some(made.error);
    }
    out := made.value;
    made := MakeNewDirs(out, InPack(dir, TexturesDir));
    if made.Err? {
      return out, Some(made.error);
    }
    out := made.value;
    var ws := FrameworkWrites(dir, names, packFormat, description);
    var base := cleared.value.files;
    assert ws[..1][..0] == [];
    assert Apply(base, ws[..1]) == base[ws[0].0 := ws[0].1];
    assert ws[..|ws| - 1] == ws[..1];
    assert Apply(base, ws) == Apply(base, ws[..1])[ws[1].0 := ws[1].1];
    out := Put(out, ws[0].0, ws[0].1);
    out := Put(out, ws[1].0, ws[1].1);
    err := None;
  }

  /** One more model written after the first `i`. */
  lemma ModelStep(files: map<string, string>, first: seq<(string, string)>, dir: string, names: seq<string>, i: nat)
    requires i < |names|
    ensures Apply(files, first + ModelWrites(dir, names[..i + 1]))
      == Apply(files, first + ModelWrites(dir, names[..i]))[ItemFile(dir, names[i]) := Dumps(ItemModel(names[i]))]
  {
    var ws := first + ModelWrites(dir, names[..i + 1]);
    assert ws[..|ws| - 1] == first + ModelWrites(dir, names[..i]);
    assert ws[|ws| - 1] == (ItemFile(dir, names[i]), Dumps(ItemModel(names[i])));
  }

  /** Does `music_disc_<name>.json` lie in a sub-folder of the item models
      folder? The folder is made fresh just before, and nothing makes a
      folder inside it, so opening such a file fails: FileNotFoundError, or
      NotADirectoryError when the part before the `/` names a model file
      already written. The model reports the first in both cases. */
  predicate Nested(name: string) {
    '/' in name
  }

  /** The index of the first name whose model file cannot be opened, or the
      number of names when every one can. */
  function FirstNested(names: seq<string>): (k: nat)
    ensures k <= |names|
    ensures forall i :: 0 <= i < k ==> !Nested(names[i])
    ensures k < |names| ==> Nested(names[k])
    decreases |names|
  {
    if names == [] then 0
    else if Nested(names[0]) then 0
    else 1 + FirstNested(names[1..])
  }

  /** The first `1 + k` item writes are `music_disc_11.json` and the models
      of the first `k` names. */
  lemma ItemWritesPrefix(dir: string, names: seq<string>, offset: int, k: nat)
    requires k <= |names|
    ensures ItemWrites(dir, names, offset)[..1 + k]
         == [(ItemFile(dir, "11"), Dumps(MusicDisc11(names, offset)))] + ModelWrites(dir, names[..k])
    ensures k == |names| ==> ItemWrites(dir, names, offset)[..1 + k] == ItemWrites(dir, names, offset)
  {
    var all := ItemWrites(dir, names, offset);
    var ms := ModelWrites(dir, names[..k]);
    assert forall j :: 0 <= j < k ==> ms[j] == all[1 + j];
  }

  /** The loop of `write_item_models` over the names: one model per name,
      after the writes `first`, stopping at the first name whose model file
      cannot be opened. */
  /** A name without a folder part, at or before the first nested one, is
      before it. */
  lemma FirstNestedNext(names: seq<string>, k: nat)
    requires k < |names| && k <= FirstNested(names) && !Nested(names[k])
    ensures k + 1 <= FirstNested(names)
  {
  }

  method WriteModels(fs: Fs, dir: string, names: seq<string>, first: seq<(string, string)>, files: map<string, string>)
    returns (out: Fs, k: nat)
    requires fs.files == Apply(files, first)
    ensures k == FirstNested(names)
    ensures out.files == Apply(files, first + ModelWrites(dir, names[..k]))
    ensures out.dirs == fs.dirs
  {
    out := fs;
    assert first + ModelWrites(dir, names[..0]) == first;
    k := 0;
    while k < |names| && !Nested(names[k])
      invariant 0 <= k <= |names|
      invariant k <= FirstNested(names)
      invariant out.files == Apply(files, first + ModelWrites(dir, names[..k]))
      invariant out.dirs == fs.dirs
    {
      ModelStep(files, first, dir, names, k);
      FirstNestedNext(names, k);
      out := Put(out, ItemFile(dir, names[k]), Dumps(ItemModel(names[k])));
      k := k + 1;
    }
  }

  /** `write_item_models`: `music_disc_11.json` with the override list of
      every name, then `music_disc_<name>.json` for each name in order, until
      a name's model file cannot be opened. */
  method WriteItemModels(fs: Fs, dir: string, names: seq<string>, offset: int) returns (out: Fs, err: Option<Error>)
    ensures out.files == Apply(fs.files, ItemWrites(dir, names, offset)[..1 + FirstNested(names)])
    ensures err.None? <==> FirstNested(names) == |names|
    ensures err.Some? ==> err == Some(NoSuchDirectory)
    ensures err.None? ==> out.files == Apply(fs.files, ItemWrites(dir, names, offset))
    ensures out.dirs == fs.dirs
  {
    var first := [(ItemFile(dir, "11"), Dumps(MusicDisc11(names, offset)))];
    out := Put(fs, first[0].0, first[0].1);
    assert first[..0] == [];
    assert out.files == Apply(fs.files, first);
    var k;
    out, k := WriteModels(out, dir, names, first, fs.files);
    ItemWritesPrefix(dir, names, offset, k);
    err := if k < |names| then Some(NoSuchDirectory) else None;
  }

  /** The framework's writes followed by the first `1 + k` item writes are
      the first `3 + k` writes of the whole pack. */
  lemma PackPrefixApply(base: map<string, string>, mid: map<string, string>, m: map<string, string>,
                        dir: string, names: seq<string>, packFormat: int, description: string, offset: int, k: nat)
    requires k <= |names|
    requires mid == Apply(base, FrameworkWrites(dir, names, packFormat, description))
    requires m == Apply(mid, ItemWrites(dir, names, offset)[..1 + k])
    ensures m == Apply(base, PackWrites(dir, names, packFormat, description, offset)[..3 + k])
    ensures k == |names| ==> m == Apply(base, PackWrites(dir, names, packFormat, description, offset))
  {
    var fw := FrameworkWrites(dir, names, packFormat, description);
    var iw := ItemWrites(dir, names, offset);
    assert |fw| == 2 && |iw| == 1 + |names|;
    ApplyAppendPrefix(base, fw, iw, 1 + k);
    if k == |names| {
      assert (fw + iw)[..3 + k] == fw + iw;
    }
  }

  /** The pack writing inside the `try` of `generate_resourcepack`, for a
      pack folder `dir` and the disc names: `write_rp_framework`, then
      `write_item_models`. */
  method WritePack(fs: Fs, dir: string, names: seq<string>, packFormat: int, description: string, offset: int)
    returns (out: Fs, outcome: Outcome)
    ensures || outcome == Returned(Success) || outcome == Returned(PackDirInUse)
            || outcome == Raised(NoSuchDirectory) || outcome == Raised(NotADirectory)
    ensures Foreign(fs, dir) ==> out == fs && outcome == Returned(PackDirInUse)
    ensures Bare(dir) && Settled(fs, dir) ==> (outcome == Returned(PackDirInUse) <==> Foreign(fs, dir))
    ensures Bare(dir) && Settled(fs, dir) ==> (outcome == Raised(NotADirectory) <==> !Foreign(fs, dir) && FileAbove(fs, dir))
    ensures outcome == Returned(Success) ==> FirstNested(names) == |names|
    ensures outcome == Raised(NoSuchDirectory) ==> FirstNested(names) < |names|
    ensures Bare(dir) && Settled(fs, dir) && !Foreign(fs, dir) ==>
      (outcome == Returned(Success) <==> !FileAbove(fs, dir) && FirstNested(names) == |names|)
    ensures outcome == Returned(Success) ==>
      out.files == Apply(ClearPackDir(fs, dir).value.files, PackWrites(dir, names, packFormat, description, offset))
    ensures outcome == Raised(NoSuchDirectory) ==>
      out.files == Apply(ClearPackDir(fs, dir).value.files, PackWrites(dir, names, packFormat, description, offset)[..3 + FirstNested(names)])
    ensures outcome == Raised(NotADirectory) ==> out.files == ClearPackDir(fs, dir).value.files
    ensures Bare(dir) ==> forall p :: !Under(p, dir) ==>
      && (p in out.files <==> p in fs.files)
      && (p in fs.files ==> out.files[p] == fs.files[p])
  {
    var err;
    out, err := WriteFramework(fs, dir, names, packFormat, description);
    if err.Some? {
      outcome := Catch(err);
      assert outcome == Returned(PackDirInUse) || outcome == Raised(NotADirectory);
      return;
    }
    var mid := out.files;
    out, err := WriteItemModels(out, dir, names, offset);
    var base := ClearPackDir(fs, dir).value.files;
    var ws := PackWrites(dir, names, packFormat, description, offset);
    PackPrefixApply(base, mid, out.files, dir, names, packFormat, description, offset, FirstNested(names));
    assert out.files == Apply(base, ws[..3 + FirstNested(names)]);
    outcome := if err.Some? then Raised(NoSuchDirectory) else Returned(Success);
    if Bare(dir) {
      PackKeepsOutside(fs, out.files, dir, names, packFormat, description, offset, 3 + FirstNested(names));
    }
  }

  /** `generate_resourcepack(entry_list, user_settings)` up to the asset
      copy. It returns SUCCESS or PACK_DIR_IN_USE, or raises
      NotADirectoryError for a regular file at a folder above the pack
      folder, or FileNotFoundError for a disc name with a folder part; a
      foreign pack folder is left untouched; on an operating system's file
      system PACK_DIR_IN_USE means exactly that the folder is foreign,
      NotADirectoryError exactly that a file stands above it, and otherwise
      SUCCESS exactly that no name has a folder part; and nothing outside
      the pack folder changes. */
  method GenerateResourcepack(fs: Fs, entries: seq<DiscEntry>, s: Settings, c: Constants)
    returns (out: Fs, outcome: Outcome)
    ensures || outcome == Returned(Success) || outcome == Returned(PackDirInUse)
            || outcome == Raised(NoSuchDirectory) || outcome == Raised(NotADirectory)
    ensures var dir := PackDir(s, c, c.resourcepackSuffix);
      && (Foreign(fs, dir) ==> out == fs && outcome == Returned(PackDirInUse))
      && (Bare(dir) && Settled(fs, dir) ==> (outcome == Returned(PackDirInUse) <==> Foreign(fs, dir)))
      && (Bare(dir) && Settled(fs, dir) ==> (outcome == Raised(NotADirectory) <==> !Foreign(fs, dir) && FileAbove(fs, dir)))
    ensures var names := InternalNames(entries);
      && (outcome == Returned(Success) ==> FirstNested(names) == |names|)
      && (outcome == Raised(NoSuchDirectory) ==> FirstNested(names) < |names|)
    ensures var dir := PackDir(s, c, c.resourcepackSuffix);
      var names := InternalNames(entries);
      Bare(dir) && Settled(fs, dir) && !Foreign(fs, dir) ==>
        (outcome == Returned(Success) <==> !FileAbove(fs, dir) && FirstNested(names) == |names|)
    ensures var dir := PackDir(s, c, c.resourcepackSuffix);
      var names := InternalNames(entries);
      var ws := PackWrites(dir, names, OrElse(s.rp, c.defaultPackFormat), c.describe(|names|), Offset(s));
      && (outcome == Returned(Success) ==> out.files == Apply(ClearPackDir(fs, dir).value.files, ws))
      && (outcome == Raised(NoSuchDirectory) ==>
            out.files == Apply(ClearPackDir(fs, dir).value.files, ws[..3 + FirstNested(names)]))
      && (outcome == Raised(NotADirectory) ==> out.files == ClearPackDir(fs, dir).value.files)
    ensures var dir := PackDir(s, c, c.resourcepackSuffix);
      Bare(dir) ==> forall p :: !Under(p, dir) ==>
        && (p in out.files <==> p in fs.files)
        && (p in fs.files ==> out.files[p] == fs.files[p])
  {
    var names := InternalNames(entries);
    out, outcome := WritePack(fs, PackDir(s, c, c.resourcepackSuffix), names,
                              OrElse(s.rp, c.defaultPackFormat), c.describe(|names|), Offset(s));
  }
}
