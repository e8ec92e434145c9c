# Infinite Music Discs: the pack template engine

This project is a Dafny model of the file-writing core of the version 2 pack
generator of Infinite Music Discs (`src/generator/v2.py`). The generator turns
a list of disc entries into two Minecraft packs:

- The **datapack** is written from a catalog of file descriptors. Each
  descriptor has a path made of template segments, a body that is a string or
  a JSON object, a `format_contents` flag, and a `repeat` policy.
  - `single` writes one file.
  - `copy` writes one file per disc.
  - `copy_within` writes one file holding one body per disc.

  Template text is expanded with Python's `str.format` against the
  generator's local variables and the current disc `entry`.
- The **resourcepack** is written directly:
  - `pack.mcmeta`;
  - `sounds.json`, with one sound event per disc;
  - the `music_disc_11.json` item model, whose overrides map each
    `custom_model_data` index to a disc model;
  - one item model per disc.

Both generators refuse to delete a pack folder that has no `pack.mcmeta`.
They map the two exceptions they catch to status codes.

How the pieces are modelled:

- **Data.**
  - JSON values are a datatype whose objects keep their members in
    insertion order.
  - The format context is an immutable map from names to string, integer
    or object values. The `entry` binding is added explicitly.
  - The file system is a map from path strings to file text, plus a set of
    directories.
  - Opening a file for writing empties it before its body is formatted. A
    body that fails to format therefore leaves an empty file behind.
- **Serialisation.** `json.dumps(..., indent=4)` is written out concretely,
  with ASCII escaping. `str.format` is modelled for named and dotted fields
  and for `{{`/`}}` escapes.
- **Driver abstraction.** Each descriptor reaches the drivers as a
  `Template`: its formatted path and its body, each as a function of the
  context.
- **Catalog loop.** The loop is stated for any driver functions and then
  applied to the real drivers.

Modules, one per file:

- `errors.dfy`: `Errors`
- `strings.dfy`: `Strings`
- `json_value.dfy`: `JsonValue`
- `json_text.dfy`: `JsonText`
- `format.dfy`: `Format`
- `formatter.dfy`: `Formatter`
- `paths.dfy`: `Paths`
- `file_system.dfy`: `FileSystem`
- `discs.dfy`: `Discs`
- `pack_writer.dfy`: `PackWriter`
- `repeat.dfy`: `Repeat`
- `numbering.dfy`: `Numbering`
- `sounds.dfy`: `Sounds`
- `packs.dfy`: `Packs`
- `datapack.dfy`: `Datapack`
- `resourcepack.dfy`: `Resourcepack`

## Model

| member | source | states |
|---|---|---|
| Format.SubstEscapeRoundTrip | src/generator/v2.py:290 | Formatting text whose braces are doubled gives the text back, in any context. |
| Format.SubstOneField | src/generator/v2.py:290 | A template with one named field, whose value is a string or an integer, formats to the surrounding text with the value in place of the field. |
| Format.SubstMissingKey | src/generator/v2.py:290 | A field naming a key absent from the context fails with the missing-key error (`KeyError`). |
| Format.ResolveDotted | src/generator/v2.py:290 | `{obj.attr}` reads attribute `attr` of object `obj`. A missing attribute fails with the attribute error. |
| Format.SubstExtend | src/generator/v2.py:311 | Adding names to the context, as `fmt_dict.update` does, never changes a formatting that already succeeded. |
| Format.SubstAllPointwise | src/generator/v2.py:303 | Formatting a list of templates succeeds iff every template formats, and then gives each one's result in order. Otherwise it fails with the error of the first template that fails. |
| Formatter.FmtJson | src/generator/v2.py:274-295 | A successful `fmt_json` keeps the skeleton of its input: same tree, same keys in order, same list lengths and same non-string leaves. |
| Formatter.FmtJsonSpec | src/generator/v2.py:274-295 | `fmt_json` gives x iff x has the input's skeleton and the input's string leaves, each formatted in order, are exactly x's leaves. |
| Formatter.FmtJsonShape | src/generator/v2.py:280-293 | A formatted object has the same keys in the same order. A formatted list has the same length. A string stays a string, and any other leaf is unchanged. |
| Formatter.FmtJsonFailure | src/generator/v2.py:287-293 | `fmt_json` fails iff some string leaf fails to format, and it fails with the error of the first such leaf in document order. |
| Formatter.FmtJsonResolved | src/generator/v2.py:287-295 | A tree whose strings hold no braces comes back unchanged. |
| Formatter.FmtPathSegments | src/generator/v2.py:302-304 | `fmt_path` succeeds iff the segment list is nonempty and every segment formats. Split at `/`, a path of plain segments gives back exactly the formatted segments, in order. |
| Formatter.FmtPathExtend | src/generator/v2.py:302-304 | A path that formats in a context formats the same in any larger context. |
| Paths.PathJoinSplit | src/generator/v2.py:304 | `os.path.join` of plain segments splits back into the same segments. |
| Paths.DirnameOfJoin | src/generator/v2.py:313 | The directory part of a join of two or more plain segments is the join of all but the last. It is never empty. |
| Strings.LStrip | src/generator/v2.py:363 | `lstrip` returns a suffix of its input that starts with no whitespace, and only whitespace was removed. |
| PackWriter.TextBody | src/generator/v2.py:361-365 | An unformatted text body is the template with its leading whitespace removed. A formatted body with no braces is the same stripped text. |
| PackWriter.TextBodyStripsBeforeFormatting | src/generator/v2.py:363 | Whitespace is stripped before formatting, so whitespace that a field's value begins with is kept. |
| PackWriter.JsonBodySpec | src/generator/v2.py:370-374 | Unformatted, the body is the dump of the contents. Formatted, it is the dump of a value with the contents' skeleton whose leaves are the formatted leaves. It fails exactly when a leaf fails, with that leaf's error. The text is ASCII. |
| JsonText.Dumps | src/generator/v2.py:370-374 | `json.dump(..., indent=4)` with the default `ensure_ascii` writes only printable ASCII and newlines, so the JSON files can never fail to encode. |
| JsonText.EscapeStringRoundTrip | src/generator/v2.py:370-374 | Every character of a string is escaped so that a JSON reader reads the same string back. The reader takes the string literals of section 7 of RFC 8259, including `\/` and upper-case hex digits, and refuses a raw quote or a raw control character. It is stricter than that grammar in one place only: it refuses a surrogate escape that is not part of a pair, which a Dafny string cannot hold. So quotes, backslashes and control characters must be escaped, and characters above U+FFFF must be written as surrogate pairs. |
| JsonText.DumpsStringRoundTrip | src/generator/v2.py:370-374 | A string value dumped as JSON reads back, as a string literal, to the same string. No unescaped quote ends the literal early. |
| PackWriter.PackFileBody | src/generator/v2.py:352-357 | A string body goes through the text writer and a dict body through the JSON writer. Any other body writes nothing. |
| PackWriter.PackFileBodyNotCaught | src/generator/v2.py:352-374 | Writing a body never fails with an error the generators catch. |
| FileSystem.EnsureParent | src/generator/v2.py:313-316 | The parent check fails iff the path has no directory part (`os.makedirs('')`). Otherwise the parent folder exists afterwards, and nothing changes when it already existed as a folder. |
| FileSystem.MakeNewDirs | src/generator/v2.py:176-178 | `os.makedirs` fails with `FileExistsError` iff the leaf already exists. Failing that, it fails with `NotADirectoryError` iff a regular file stands at a folder above the leaf. Otherwise it adds the folder and keeps the files. |
| Repeat.Target | src/generator/v2.py:312-316 | A descriptor opens its formatted path exactly when the path formats and has a directory part. A formatting failure is passed on unchanged. A path with no directory part fails as `os.makedirs('')` does. |
| Repeat.RemoveTreeForgetsWrites | src/generator/v2.py:49 | Clearing a pack folder with `rmtree` erases any run of writes made inside it: the result is what clearing it before those writes would have left. |
| Repeat.WriteSingle | src/generator/v2.py:310-319 | `single` writes exactly one file, at the path from the base context, holding the formatted body. A failing body leaves the file empty. A failing path writes nothing. The parent directory exists afterwards, and no directory is made when it already existed. |
| Repeat.CopyEntry | src/generator/v2.py:324-333 | One turn of `copy`: the entry's file is opened at its own path and holds its body, or is empty when the body fails. |
| Repeat.WriteCopy | src/generator/v2.py:323-333 | `copy` opens one file per entry in list order, each with `entry` bound, and stops at the first entry whose path or body fails. It reports that entry's error, or none when all succeed. Every new file's folder exists. |
| Repeat.CopyDomain | src/generator/v2.py:323-333 | After `copy` a file exists iff it existed before or some opened entry's path names it. |
| Repeat.CopyUntouched | src/generator/v2.py:323-333 | A file no entry opens keeps its text. |
| Repeat.CopyLastWins | src/generator/v2.py:323-333 | When two entries resolve to the same path, the file holds the later entry's body. |
| Repeat.CopyFreshSize | src/generator/v2.py:323-333 | With distinct new paths, `copy` adds exactly one file per opened entry. |
| Repeat.WriteBodies | src/generator/v2.py:344-348 | The file text of `copy_within` is the concatenation, in entry order, of the bodies written before the first failure. The error is that body's error. |
| Repeat.WriteCopyWithin | src/generator/v2.py:337-348 | `copy_within` resolves the path once, without `entry`, and writes one file. The file holds the concatenated bodies up to the first failure, and the error is that body's error. A failing path writes nothing. |
| Numbering.AssignModelData | src/generator/v2.py:30-31 | Entry i gets `custom_model_data` offset + 1 + i and nothing else changes. The indices run from offset + 1 to offset + n, strictly increasing and contiguous. |
| Numbering.OverridesMirrorNumbering | src/generator/v2.py:211-217 | The `music_disc_11.json` override list has one element per disc, in order. Element i reads back the index and model name that the numbering gave disc i. |
| Numbering.OverrideReadBack | src/generator/v2.py:214-217 | An override's predicate reads back its index and its model reads back `item/music_disc_<name>`. |
| Sounds.DictSetKeys | src/generator/v2.py:201 | Dict assignment keeps the key order and appends a new key last, so distinct keys stay distinct. |
| Sounds.DictSetGet | src/generator/v2.py:201 | After `d[k] = v`, `k` reads `v` and every other key reads as before. |
| Sounds.SoundsEvents | src/generator/v2.py:191-201 | `sounds.json` has no repeated key. A key is present iff it is `music_disc.<name>` for some name, and that key holds the event streaming `records/<name>`. |
| Sounds.SoundsInOrder | src/generator/v2.py:191-201 | With distinct names, `sounds.json` lists exactly one event per name, in the order of the names. |
| Packs.Catch | src/generator/v2.py:75-79 | No failure returns SUCCESS. `UnicodeEncodeError` gives BAD_UNICODE_CHAR and `FileExistsError` gives PACK_DIR_IN_USE. Any other failure escapes with its own error. |
| Packs.ClearPackDir | src/generator/v2.py:45-49 | A folder without `pack.mcmeta` raises `FileExistsError` and is left alone. A pack folder is removed with everything under it and nothing else. An absent folder needs nothing. Afterwards the folder is gone. |
| Packs.JoinInjective | src/generator/v2.py:46 | Different relative names joined onto the same folder give different paths. |
| Datapack.VersionStringRoundTrip | src/generator/v2.py:38 | The `dp_version_str` text `v<major>.<minor>` splits at the dot into two integers that read back as major and minor. |
| Datapack.DriverNotCaught | src/generator/v2.py:67-73 | A driver fails only while formatting or making a parent folder. It never fails with an error the generator catches. |
| Datapack.WriteDescriptor | src/generator/v2.py:67-73 | The dispatch on `repeat` runs the named driver. An unrecognised value writes nothing. Every new file's folder exists. |
| Datapack.CatalogRunMatches | src/generator/v2.py:67-73 | The catalog loop ends with the error of the first failing descriptor, after running every driver up to and including it, or with no error after running all of them. |
| Datapack.RunCatalog | src/generator/v2.py:67-73 | The loop over the catalog runs each driver on the files the earlier ones left and stops at the first failure. |
| Datapack.WriteCatalog | src/generator/v2.py:67-73 | Writing the catalog reports the first failing descriptor's error. The files are those after the drivers up to and including that descriptor, or after all of them. |
| Datapack.CatalogNotCaught | src/generator/v2.py:67-79 | The catalog fails only with an error no `except` clause catches. |
| Datapack.GenerateDatapack | src/generator/v2.py:24-79 | The entries come back numbered offset + 1 + i. A foreign pack folder is never touched, and it is the only cause of PACK_DIR_IN_USE. Otherwise the old pack is cleared, the catalog is written, and the status is the caught catalog error. The pack folder is the `name` setting, or the default name, followed by the datapack suffix. |
| Resourcepack.PackFilesDistinct | src/generator/v2.py:181-209 | `pack.mcmeta`, `sounds.json` and every item model are different files. |
| Resourcepack.WriteFramework | src/generator/v2.py:165-203 | A foreign folder raises `FileExistsError` and is untouched. Otherwise the old pack is cleared, the three asset folders are made, and `pack.mcmeta` then `sounds.json` are written. A regular file at a folder above the pack folder makes `os.makedirs` raise `NotADirectoryError`. On an operating system's file system these are the only two failures, each exactly in its case. |
| Resourcepack.WriteItemModels | src/generator/v2.py:206-231 | `music_disc_11.json` is written first, with the overrides of every name. Then one item model is written per name, in order, until the first name with a `/`. That name's `music_disc_<name>.json` lies in a folder that does not exist as a folder, so its `open` fails, modelled as `FileNotFoundError`, and nothing more is written. The folders are unchanged. |
| Resourcepack.PackFramework | src/generator/v2.py:180-203 | The finished pack's `pack.mcmeta` holds the format and description. Its `sounds.json` holds the events of the names. |
| Resourcepack.PackItemModels | src/generator/v2.py:225-231 | Every disc's item model file holds the model pointing at its texture. |
| Resourcepack.PackMusicDisc11 | src/generator/v2.py:208-231 | `music_disc_11.json` holds the override list, unless a disc is named `11`, whose own model overwrites it. |
| Resourcepack.PackWritesInside | src/generator/v2.py:165-231 | Every file the resourcepack writes lies inside the pack folder. |
| Resourcepack.PackOutside | src/generator/v2.py:165-231 | Files outside the pack folder keep their presence and their text, after all of the pack's writes or after any first part of them. |
| Resourcepack.GenerateResourcepack | src/generator/v2.py:105-135 | The call returns SUCCESS or PACK_DIR_IN_USE, or raises an error no `except` clause catches: `NotADirectoryError` when a regular file stands at a folder above the pack folder, or `FileNotFoundError` when a disc name holds a `/`. A foreign folder is untouched and gives PACK_DIR_IN_USE. Otherwise `NotADirectoryError` comes exactly when such a file exists, and the files are then the cleared ones. Failing both, SUCCESS comes exactly when no name holds a `/`. On success the files are the cleared ones plus the framework and item-model writes. When the error is raised, they are the writes up to the first such name. Files outside the pack folder are unchanged. The pack folder is the `name` setting, or the default name, followed by the resourcepack suffix. |

## Left out

- `zip_pack`, `copy_assets` and the `pack.png` copy. They are archive and file copies of files outside the model. The resourcepack is modelled up to the item models.
- Printing, the temporary-folder cleanup and `src/generator/top.py`, which only dispatches to a generator class.
- `os.chdir`. The item models are written to the path that the change of folder resolves to.
- The `locals()` capture. The model's context for the datapack templates binds five of the generator's locals: `pack_format`, `offset`, `datapack_name`, `dp_version_str` and `dp_num_discs`. This is a modelling choice: a template naming any other local is reported as a missing key. The drivers add `entry` explicitly. The entry left stale after the loop at line 61 is not modelled.
- The in-place edits of the catalog at lines 56 and 62-64 (`pack_format` into `pack.mcmeta`, the creeper drop list). The catalog is a parameter, taken as it stands after those edits.
- `write_copy`: only `entry` is added to its context, as in the code. The loop index is not bound.
- `Constants` and `DiscListEntry` of `src/definitions.py`, which is not part of this model. The default pack format, default name, suffixes and description text are a parameter. The attributes of an entry that a template can read (`title`, `internal_name`, `track_file`, `texture_file`, `custom_model_data`) are a modelling choice. Only `custom_model_data` and `internal_name` appear in the generator itself.
- `user_settings['version']` is assumed present. An absent `version` key raises `AttributeError` before anything is written.
- `str.format` format specs, conversions and indexing (`{x:>3}`, `{x!r}`, `{0}`). They are reported as an unsupported field, where Python may succeed. Positional fields fail, since no positional arguments are passed.
- Format.SubstMissingKey: a field's first part counts as a positional index only when it is all ASCII digits. Python's `str.format` also reads other Unicode decimal digits as an index, so `{٣}` raises `IndexError` in Python and `KeyError` in the model. An index above the largest `Py_ssize_t` (2^63 - 1 on 64-bit builds) raises `ValueError` ("Too many decimal digits") in Python, where the model gives `IndexError`. Both errors escape the generator, so only the exception type differs.
- Format.Render: a field naming a whole object (`{entry}`) fails as not renderable, where Python substitutes `str(obj)`. An attribute of a string or integer value (`{offset.real}`, `{datapack_name.upper}`) fails as a missing attribute, where Python renders it. Only attributes of object values are modelled.
- Floats in JSON bodies. Numbers are integers.
- `UnicodeEncodeError` cannot arise in the model. File contents are written as UTF-8, and Dafny strings hold no lone surrogate, the only text UTF-8 cannot encode. File names are encoded with the file-system encoding, which the model assumes is UTF-8 too. The status mapping is still modelled.
- A disc name or formatted path holding a NUL character (`ValueError` from `open`), or one longer than the operating system allows (`OSError`).
- Datapack.GenerateDatapack: its promise that BAD_UNICODE_CHAR never results is a consequence of the string type, not of the program. A text body whose formatted value holds a lone surrogate makes the program return BAD_UNICODE_CHAR (v2.py:75-76); the model cannot express that input. Under a file-system encoding other than UTF-8, such as a Latin-1 or ASCII locale, a path holding a character that encoding lacks also gives BAD_UNICODE_CHAR.
- Datapack.GenerateDatapack: paths are identified as strings, with no resolution of `.`, `..` or repeated `/`. A formatted folder part ending in `..` below a missing folder (a `copy` path `dp/data/{entry.internal_name}/f.json` with the name `..`) makes `os.makedirs` raise `FileExistsError`. The program then returns PACK_DIR_IN_USE, which the model gives only for a foreign folder.
- Datapack.DriverNotCaught: its promise that no driver error is caught holds for paths without `.` or `..` folder parts. The `..` case above is a caught `FileExistsError`.
- Datapack.CatalogNotCaught: the same `..` case is a caught error the model does not produce.
- Repeat.CopyDomain: it counts distinct path strings. Two strings naming one file through `.`, `..` or `//` are two files in the model.
- Repeat.CopyFreshSize: likewise, "distinct new paths" means distinct strings, not distinct files.
- FileSystem.EnsureParent: the parent check treats an existing file at the parent path, or at any folder above it, as absent, and then adds those paths as folders. For a file at a folder above the parent, `os.makedirs` raises `NotADirectoryError`. A folder part ending in `..` below a missing folder succeeds here, where `os.makedirs` raises `FileExistsError`. The program's `os.path.exists` is also true for a file, so it skips `os.makedirs`, and the following `open` raises `NotADirectoryError`, which nothing catches. An `open` of a path that is itself a folder (`IsADirectoryError`) is likewise not modelled. Writes are plain map updates.
- `shutil.rmtree(..., ignore_errors=True)` partial failures. The removal is total.
- Windows paths. `os.path.join` and `os.path.dirname` are modelled with POSIX rules, with `/` as the only separator. Windows `ntpath` also splits at `\` and keeps drive letters.
- Packs.ClearPackDir: a pack folder path that names a file, rather than a folder, is treated as absent, like `os.path.isdir`. Later writes into it are modelled as plain map updates.
- Resourcepack.GenerateResourcepack: under a file-system encoding other than UTF-8, a disc name that encoding cannot represent makes `open` at v2.py:227 raise `UnicodeEncodeError`, and the program returns BAD_UNICODE_CHAR (v2.py:128-129). The model assumes a UTF-8 file-system encoding and never gives that status.
- Resourcepack.GenerateResourcepack: the claim that PACK_DIR_IN_USE arises only from a foreign folder holds under two conditions. The folder name must be nonempty and must not end in `/`. When the folder is absent, nothing may exist below it. Outside those states `os.makedirs` may also raise `FileExistsError`.
- Resourcepack.WriteFramework: its `FileExistsError`-iff-foreign and `NotADirectoryError`-iff-file-above claims carry the same two conditions.
- Resourcepack.WriteItemModels: every name with a `/` gives `FileNotFoundError`. When the part before the `/` names a file already written, the program's `open` raises `NotADirectoryError` instead. An example is `11.json/x`, whose folder part is `music_disc_11.json`, or `a.json/x` after a disc `a`. Both errors escape, so only the exception type differs. The same holds for Resourcepack.GenerateResourcepack.
