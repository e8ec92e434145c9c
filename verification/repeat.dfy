/** The repetition driver: `write_single`, `write_copy` and
    `write_copy_within` over the file system. Each opens its file with
    `open(path, 'w')`, which empties it before the body is formatted, so a
    body that fails to format leaves an empty file behind; a path that fails
    to format opens nothing. */
module Repeat {
  import opened Errors
  import opened Strings
  import opened Paths
  import opened FileSystem
  import opened Format
  import opened Formatter
  import opened Discs
  import opened PackWriter

  /** A descriptor as the drivers see it: `fmt_path` of its path template
      and `write_pack_file` of the descriptor, each as a function of the
      context. */
  datatype Template = Template(path: Ctx -> Result<string>, body: Ctx -> Result<string>)

  function TemplateOf(d: Descriptor): (t: Template)
    ensures forall c :: t.path(c) == FmtPath(c, d.path) && t.body(c) == PackFileBody(d, c)
  {
    Template(c => FmtPath(c, d.path), c => PackFileBody(d, c))
  }

  /** The file a descriptor writes in context `c`: its formatted path, which
      needs a directory part, because the parent check calls
      `os.makedirs` on it and `os.makedirs('')` fails. */
  function Target(t: Template, c: Ctx): (r: Result<string>)
    ensures r.Ok? <==> t.path(c).Ok? && Dirname(t.path(c).value) != []
    ensures r.Ok? ==> t.path(c) == r
    ensures t.path(c).Err? ==> r == Err(t.path(c).error)
    ensures t.path(c).Ok? && r.Err? ==> r.error == NoSuchDirectory
  {
    var p :- t.path(c);
    if Dirname(p) == [] then Err(NoSuchDirectory) else Ok(p)
  }

  /** What an opened file holds once its body write has run or failed. */
  function Written(b: Result<string>): string {
    if b.Ok? then b.value else []
  }

  // Whole-file writes applied in order ---------------------------------

  function Apply(files: map<string, string>, ws: seq<(string, string)>): map<string, string>
    decreases |ws|
  {
    if ws == [] then files
    else Apply(files, ws[..|ws| - 1])[ws[|ws| - 1].0 := ws[|ws| - 1].1]
  }

  /** After a run of writes the files are the old ones plus every written path. */
  lemma {:induction false} ApplyDomain(files: map<string, string>, ws: seq<(string, string)>, p: string)
    ensures p in Apply(files, ws) <==> p in files || exists i :: 0 <= i < |ws| && ws[i].0 == p
    decreases |ws|
  {
    if ws != [] {
      var init := ws[..|ws| - 1];
      ApplyDomain(files, init, p);
      if exists i :: 0 <= i < |init| && init[i].0 == p {
        var i :| 0 <= i < |init| && init[i].0 == p;
        assert ws[i].0 == p;
      }
      if exists i :: 0 <= i < |ws| && ws[i].0 == p {
        var i :| 0 <= i < |ws| && ws[i].0 == p;
        if i < |init| {
          assert init[i].0 == p;
        }
      }
    }
  }

  /** A path no write names keeps its old content. */
  lemma {:induction false} ApplyUntouched(files: map<string, string>, ws: seq<(string, string)>, p: string)
    requires p in files
    requires forall i :: 0 <= i < |ws| ==> ws[i].0 != p
    ensures p in Apply(files, ws) && Apply(files, ws)[p] == files[p]
    decreases |ws|
  {
    if ws != [] {
      var init := ws[..|ws| - 1];
      assert forall i :: 0 <= i < |init| ==> init[i] == ws[i];
      ApplyUntouched(files, init, p);
    }
  }

  /** When several writes name one path, the last of them decides its content. */
  lemma {:induction false} ApplyLastWins(files: map<string, string>, ws: seq<(string, string)>, i: nat)
    requires i < |ws|
    requires forall j :: i < j < |ws| ==> ws[j].0 != ws[i].0
    ensures ws[i].0 in Apply(files, ws) && Apply(files, ws)[ws[i].0] == ws[i].1
    decreases |ws|
  {
    if i < |ws| - 1 {
      var init := ws[..|ws| - 1];
      assert forall j :: 0 <= j < |init| ==> init[j] == ws[j];
      ApplyLastWins(files, init, i);
    }
  }

  /** Two runs of writes one after the other are one run. */
  lemma {:induction false} ApplyAppend(files: map<string, string>, a: seq<(string, string)>, b: seq<(string, string)>)
    ensures Apply(files, a + b) == Apply(Apply(files, a), b)
    decreases |b|
  {
    if b == [] {
      assert a + b == a;
    } else {
      var ab := a + b;
      assert ab[..|ab| - 1] == a + b[..|b| - 1];
      assert ab[|ab| - 1] == b[|b| - 1];
      ApplyAppend(files, a, b[..|b| - 1]);
    }
  }

  /** Stopping a second run of writes after its first `k` is stopping the
      combined run after `|a| + k`. */
  lemma ApplyAppendPrefix(files: map<string, string>, a: seq<(string, string)>, b: seq<(string, string)>, k: nat)
    requires k <= |b|
    ensures Apply(Apply(files, a), b[..k]) == Apply(files, (a + b)[..|a| + k])
  {
    ApplyAppend(files, a, b[..k]);
    assert a + b[..k] == (a + b)[..|a| + k];
  }

  /** A path that some write names, and every such write with the same
      text, ends up holding that text. */
  lemma {:induction false} ApplySame(files: map<string, string>, ws: seq<(string, string)>, p: string, text: string)
    requires exists i :: 0 <= i < |ws| && ws[i].0 == p
    requires forall i :: 0 <= i < |ws| && ws[i].0 == p ==> ws[i].1 == text
    ensures p in Apply(files, ws) && Apply(files, ws)[p] == text
    decreases |ws|
  {
    if ws[|ws| - 1].0 != p {
      var init := ws[..|ws| - 1];
      var i :| 0 <= i < |ws| && ws[i].0 == p;
      assert init[i].0 == p;
      assert forall j :: 0 <= j < |init| ==> init[j] == ws[j];
      ApplySame(files, init, p, text);
    }
  }

  /** Writes to distinct new paths add one file each. */
  lemma {:induction false} ApplyFreshSize(files: map<string, string>, ws: seq<(string, string)>)
    requires forall i, j :: 0 <= i < j < |ws| ==> ws[i].0 != ws[j].0
    requires forall i :: 0 <= i < |ws| ==> ws[i].0 !in files
    ensures |Apply(files, ws)| == |files| + |ws|
    decreases |ws|
  {
    if ws != [] {
      var init := ws[..|ws| - 1];
      var last := ws[|ws| - 1];
      assert forall i :: 0 <= i < |init| ==> init[i] == ws[i];
      ApplyFreshSize(files, init);
      ApplyDomain(files, init, last.0);
      assert last.0 !in Apply(files, init);
    }
  }

  /** Clearing a folder erases a whole run of writes inside it: after any
      sequence of writes below `root`, removing `root` leaves what removing
      it before the writes would have left. */
  lemma {:induction false} RemoveTreeForgetsWrites(fs: Fs, root: string, ws: seq<(string, string)>)
    requires forall i :: 0 <= i < |ws| ==> Under(ws[i].0, root)
    ensures RemoveTree(fs.(files := Apply(fs.files, ws)), root) == RemoveTree(fs, root)
    decreases |ws|
  {
    if ws != [] {
      var init := ws[..|ws| - 1];
      var last := ws[|ws| - 1];
      assert forall i :: 0 <= i < |init| ==> init[i] == ws[i];
      RemoveTreeForgetsWrites(fs, root, init);
      var before := fs.(files := Apply(fs.files, init));
      assert fs.(files := Apply(fs.files, ws)) == Put(before, last.0, last.1);
      RemoveTreeForgetsWrite(before, root, last.0, last.1);
    }
  }

  // One descriptor, one context ------------------------------------------

  /** `write_single(src, ctx)`: one file at the path formatted from the
      caller's context, holding one body write. */
  method WriteSingle(fs: Fs, t: Template, ctx: Ctx) returns (out: Fs, err: Option<Error>)
    ensures Target(t, ctx).Err? ==> out == fs && err == Some(Target(t, ctx).error)
    ensures Target(t, ctx).Ok? ==>
      var p := Target(t, ctx).value;
      var b := t.body(ctx);
      && out.files == fs.files[p := Written(b)]
      && (err.None? <==> b.Ok?)
      && (b.Err? ==> err == Some(b.error))
      && fs.dirs <= out.dirs && Dirname(p) in out.dirs
      && (DirExists(fs, Dirname(p)) ==> out.dirs == fs.dirs)
  {
    var path := t.path(ctx);
    if path.Err? {
      return fs, Some(path.error);
    }
    var made := EnsureParent(fs, path.value);
    if made.Err? {
      return fs, Some(made.error);
    }
    out := Put(made.value, path.value, []);
    var body := t.body(ctx);
    if body.Err? {
      return out, Some(body.error);
    }
    out := Put(out, path.value, body.value);
    err := None;
  }

  // `copy`: one file per entry ------------------------------------------

  function EntryTarget(t: Template, ctx: Ctx, e: DiscEntry): Result<string> {
    Target(t, WithEntry(ctx, e))
  }

  function EntryBody(t: Template, ctx: Ctx, e: DiscEntry): Result<string> {
    t.body(WithEntry(ctx, e))
  }

  /** Does entry `e` stop a `copy` run, through its path or its body? */
  predicate EntryFails(t: Template, ctx: Ctx, e: DiscEntry) {
    EntryTarget(t, ctx, e).Err? || EntryBody(t, ctx, e).Err?
  }

  function EntryError(t: Template, ctx: Ctx, e: DiscEntry): Error
    requires EntryFails(t, ctx, e)
  {
    if EntryTarget(t, ctx, e).Err? then EntryTarget(t, ctx, e).error else EntryBody(t, ctx, e).error
  }

  /** The index of the first entry that fails, or the number of entries. */
  function FirstFailure(t: Template, ctx: Ctx, es: seq<DiscEntry>): (k: nat)
    ensures k <= |es|
    ensures forall i :: 0 <= i < k ==> !EntryFails(t, ctx, es[i])
    ensures k < |es| ==> EntryFails(t, ctx, es[k])
    decreases |es|
  {
    if es == [] then 0
    else if EntryFails(t, ctx, es[0]) then 0
    else 1 + FirstFailure(t, ctx, es[1..])
  }

  /** How many entries get their file opened: those before the first
      failure, and the failing one too when only its body failed. */
  function OpenedCount(t: Template, ctx: Ctx, es: seq<DiscEntry>): (n: nat)
    ensures n <= |es|
  {
    var k := FirstFailure(t, ctx, es);
    if k < |es| && EntryTarget(t, ctx, es[k]).Ok? then k + 1 else k
  }

  /** The path an entry's file is opened at and the text it ends up with. */
  function EntryWrite(t: Template, ctx: Ctx, e: DiscEntry): (string, string) {
    var p := EntryTarget(t, ctx, e);
    (if p.Ok? then p.value else [], Written(EntryBody(t, ctx, e)))
  }

  function CopyWrites(t: Template, ctx: Ctx, es: seq<DiscEntry>, n: nat): (ws: seq<(string, string)>)
    requires n <= |es|
    ensures |ws| == n && forall i :: 0 <= i < n ==> ws[i] == EntryWrite(t, ctx, es[i])
  {
    seq(n, i requires 0 <= i < n => EntryWrite(t, ctx, es[i]))
  }

  lemma CopyStep(files: map<string, string>, t: Template, ctx: Ctx, es: seq<DiscEntry>, i: nat)
    requires i < |es|
    ensures var w := EntryWrite(t, ctx, es[i]);
      Apply(files, CopyWrites(t, ctx, es, i + 1)) == Apply(files, CopyWrites(t, ctx, es, i))[w.0 := w.1]
  {
    var ws := CopyWrites(t, ctx, es, i + 1);
    var init := CopyWrites(t, ctx, es, i);
    assert forall k :: 0 <= k < i ==> ws[..i][k] == init[k];
    assert ws[..i] == init;
  }

  /** The entry at `i` stops a `copy` run that got past the entries before it. */
  lemma CopyStopsAt(t: Template, ctx: Ctx, es: seq<DiscEntry>, i: nat)
    requires i < |es| && i <= FirstFailure(t, ctx, es) && EntryFails(t, ctx, es[i])
    ensures FirstFailure(t, ctx, es) == i
    ensures OpenedCount(t, ctx, es) == if EntryTarget(t, ctx, es[i]).Ok? then i + 1 else i
  {
  }

  /** The files a `copy` run leaves: one write per opened entry, in order. */
  function CopyFiles(files: map<string, string>, t: Template, ctx: Ctx, es: seq<DiscEntry>): map<string, string> {
    Apply(files, CopyWrites(t, ctx, es, OpenedCount(t, ctx, es)))
  }

  /** The path entry `i` of a `copy` run opens, when it opens one. */
  function OpenedPath(t: Template, ctx: Ctx, es: seq<DiscEntry>, i: nat): string
    requires i < |es|
  {
    EntryWrite(t, ctx, es[i]).0
  }

  /** A `copy` run adds exactly the paths it opens. */
  lemma CopyDomain(files: map<string, string>, t: Template, ctx: Ctx, es: seq<DiscEntry>, p: string)
    ensures p in CopyFiles(files, t, ctx, es) <==>
      p in files || exists i :: 0 <= i < OpenedCount(t, ctx, es) && OpenedPath(t, ctx, es, i) == p
  {
    var n := OpenedCount(t, ctx, es);
    var ws := CopyWrites(t, ctx, es, n);
    ApplyDomain(files, ws, p);
    assert forall i :: 0 <= i < n ==> ws[i].0 == OpenedPath(t, ctx, es, i);
  }

  /** A file no opened entry names keeps its content. */
  lemma CopyUntouched(files: map<string, string>, t: Template, ctx: Ctx, es: seq<DiscEntry>, p: string)
    requires p in files
    requires forall i :: 0 <= i < OpenedCount(t, ctx, es) ==> OpenedPath(t, ctx, es, i) != p
    ensures p in CopyFiles(files, t, ctx, es) && CopyFiles(files, t, ctx, es)[p] == files[p]
  {
    var n := OpenedCount(t, ctx, es);
    var ws := CopyWrites(t, ctx, es, n);
    assert forall i :: 0 <= i < n ==> ws[i].0 == OpenedPath(t, ctx, es, i);
    ApplyUntouched(files, ws, p);
  }

  /** An opened file holds what the last entry to open it wrote: its body,
      or nothing if that body failed. */
  lemma CopyLastWins(files: map<string, string>, t: Template, ctx: Ctx, es: seq<DiscEntry>, i: nat)
    requires i < OpenedCount(t, ctx, es)
    requires forall j :: i < j < OpenedCount(t, ctx, es) ==> OpenedPath(t, ctx, es, j) != OpenedPath(t, ctx, es, i)
    ensures OpenedPath(t, ctx, es, i) in CopyFiles(files, t, ctx, es)
    ensures CopyFiles(files, t, ctx, es)[OpenedPath(t, ctx, es, i)] == Written(EntryBody(t, ctx, es[i]))
  {
    var n := OpenedCount(t, ctx, es);
    var ws := CopyWrites(t, ctx, es, n);
    assert forall i :: 0 <= i < n ==> ws[i].0 == OpenedPath(t, ctx, es, i);
    ApplyLastWins(files, ws, i);
  }

  /** Entries that open distinct new paths add one file each. */
  lemma CopyFreshSize(files: map<string, string>, t: Template, ctx: Ctx, es: seq<DiscEntry>)
    requires forall i :: 0 <= i < OpenedCount(t, ctx, es) ==> OpenedPath(t, ctx, es, i) !in files
    requires forall i, j :: 0 <= i < j < OpenedCount(t, ctx, es) ==> OpenedPath(t, ctx, es, i) != OpenedPath(t, ctx, es, j)
    ensures |CopyFiles(files, t, ctx, es)| == |files| + OpenedCount(t, ctx, es)
  {
    var n := OpenedCount(t, ctx, es);
    var ws := CopyWrites(t, ctx, es, n);
    assert forall i :: 0 <= i < n ==> ws[i].0 == OpenedPath(t, ctx, es, i);
    ApplyFreshSize(files, ws);
  }

  /** One pass of the `write_copy` loop: `entry` is bound, the path formatted,
      the parent made and the file opened and written. */
  method CopyEntry(fs: Fs, t: Template, ctx: Ctx, e: DiscEntry) returns (out: Fs, err: Option<Error>)
    ensures EntryTarget(t, ctx, e).Err? ==> out == fs && err == Some(EntryTarget(t, ctx, e).error)
    ensures EntryTarget(t, ctx, e).Ok? ==>
      && out.files == fs.files[EntryWrite(t, ctx, e).0 := EntryWrite(t, ctx, e).1]
      && EntryWrite(t, ctx, e).0 == EntryTarget(t, ctx, e).value
      && (err.None? <==> EntryBody(t, ctx, e).Ok?)
      && (err.Some? ==> err == Some(EntryBody(t, ctx, e).error))
      && fs.dirs <= out.dirs && Dirname(EntryWrite(t, ctx, e).0) in out.dirs
  {
    var path := EntryTarget(t, ctx, e);
    if path.Err? {
      return fs, Some(path.error);
    }
    var made := EnsureParent(fs, path.value);
    out := Put(made.value, path.value, []);
    var body := EntryBody(t, ctx, e);
    if body.Err? {
      return out, Some(body.error);
    }
    out := Put(out, path.value, body.value);
    err := None;
  }

  /** `write_copy(src, entry_list, ctx)`: for each entry in order, the path
      and the body are formatted with `entry` bound to it, and a file is
      opened and written; the first failure stops the run. */
  method WriteCopy(fs: Fs, t: Template, ctx: Ctx, entries: seq<DiscEntry>) returns (out: Fs, err: Option<Error>)
    ensures var k := FirstFailure(t, ctx, entries);
      && (err.None? <==> k == |entries|)
      && (k < |entries| ==> err == Some(EntryError(t, ctx, entries[k])))
    ensures out.files == Apply(fs.files, CopyWrites(t, ctx, entries, OpenedCount(t, ctx, entries)))
    ensures Grown(fs, out)
  {
    out := fs;
    var i := 0;
    while i < |entries|
      invariant 0 <= i <= FirstFailure(t, ctx, entries)
      invariant out.files == Apply(fs.files, CopyWrites(t, ctx, entries, i))
      invariant Grown(fs, out)
    {
      CopyStep(fs.files, t, ctx, entries, i);
      var e;
      out, e := CopyEntry(out, t, ctx, entries[i]);
      if e.Some? {
        CopyStopsAt(t, ctx, entries, i);
        return out, e;
      }
      i := i + 1;
    }
    assert FirstFailure(t, ctx, entries) == |entries|;
    assert OpenedCount(t, ctx, entries) == i;
    err := None;
  }

  // `copy_within`: one file, one body per entry --------------------------

  /** The index of the first entry whose body fails, or the number of entries. */
  function FirstBodyFailure(t: Template, ctx: Ctx, es: seq<DiscEntry>): (k: nat)
    ensures k <= |es|
    ensures forall i :: 0 <= i < k ==> EntryBody(t, ctx, es[i]).Ok?
    ensures k < |es| ==> EntryBody(t, ctx, es[k]).Err?
    decreases |es|
  {
    if es == [] then 0
    else if EntryBody(t, ctx, es[0]).Err? then 0
    else 1 + FirstBodyFailure(t, ctx, es[1..])
  }

  /** The bodies of the first `n` entries, each formatted with `entry` bound to it. */
  function Bodies(t: Template, ctx: Ctx, es: seq<DiscEntry>, n: nat): (bs: seq<string>)
    requires n <= |es|
    ensures |bs| == n && forall i :: 0 <= i < n ==> bs[i] == Written(EntryBody(t, ctx, es[i]))
  {
    seq(n, i requires 0 <= i < n => Written(EntryBody(t, ctx, es[i])))
  }

  /** The text the file holds after the first `n` body writes. */
  function Collected(t: Template, ctx: Ctx, es: seq<DiscEntry>, n: nat): string
    requires n <= |es|
  {
    if n == 0 then [] else Collected(t, ctx, es, n - 1) + Written(EntryBody(t, ctx, es[n - 1]))
  }

  lemma {:induction false} CollectedBodies(t: Template, ctx: Ctx, es: seq<DiscEntry>, n: nat)
    requires n <= |es|
    ensures Collected(t, ctx, es, n) == Concat(Bodies(t, ctx, es, n))
  {
    if n > 0 {
      CollectedBodies(t, ctx, es, n - 1);
      assert Bodies(t, ctx, es, n)[..n - 1] == Bodies(t, ctx, es, n - 1);
    }
  }

  /** The body writes of `write_copy_within` into its one open file: each
      entry's body in order, stopping at the first that fails. Returns the
      text the file holds afterwards. */
  method WriteBodies(t: Template, ctx: Ctx, entries: seq<DiscEntry>) returns (text: string, err: Option<Error>)
    ensures var k := FirstBodyFailure(t, ctx, entries);
      && text == Concat(Bodies(t, ctx, entries, k))
      && (err.None? <==> k == |entries|)
      && (k < |entries| ==> err == Some(EntryBody(t, ctx, entries[k]).error))
  {
    text := [];
    var i := 0;
    while i < |entries|
      invariant 0 <= i <= FirstBodyFailure(t, ctx, entries)
      invariant text == Collected(t, ctx, entries, i)
    {
      var body := EntryBody(t, ctx, entries[i]);
      if body.Err? {
        CollectedBodies(t, ctx, entries, i);
        return text, Some(body.error);
      }
      text := text + body.value;
      i := i + 1;
    }
    CollectedBodies(t, ctx, entries, i);
    err := None;
  }

  /** `write_copy_within(src, entry_list, ctx)`: the path is formatted once,
      from the caller's context and before any entry is bound; the one file
      then receives each entry's body in order, until a body fails. */
  method WriteCopyWithin(fs: Fs, t: Template, ctx: Ctx, entries: seq<DiscEntry>) returns (out: Fs, err: Option<Error>)
    ensures Target(t, ctx).Err? ==> out == fs && err == Some(Target(t, ctx).error)
    ensures Target(t, ctx).Ok? ==>
      var p := Target(t, ctx).value;
      var k := FirstBodyFailure(t, ctx, entries);
      && out.files == fs.files[p := Concat(Bodies(t, ctx, entries, k))]
      && (err.None? <==> k == |entries|)
      && (k < |entries| ==> err == Some(EntryBody(t, ctx, entries[k]).error))
      && fs.dirs <= out.dirs && Dirname(p) in out.dirs
      && (DirExists(fs, Dirname(p)) ==> out.dirs == fs.dirs)
  {
    var path := t.path(ctx);
    if path.Err? {
      return fs, Some(path.error);
    }
    var made := EnsureParent(fs, path.value);
    if made.Err? {
      return fs, Some(made.error);
    }
    var text;
    text, err := WriteBodies(t, ctx, entries);
    out := Put(made.value, path.value, text);
  }
}
