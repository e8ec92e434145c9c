/** `write_pack_file` and the two writers it dispatches to: the text a
    template descriptor puts into one open file. */
module PackWriter {
  import opened Errors
  import opened Strings
  import opened JsonValue
  import opened JsonText
  import opened Format
  import opened Formatter

  /** How many files a descriptor produces from the entry list; any other
      `repeat` value is skipped by the generator's dispatch. */
  datatype Repeat = Single | Copy | CopyWithin | Unrecognised(name: string)

  /** One file template of the catalog. */
  datatype Descriptor = Descriptor(
    path: seq<string>,
    contents: Json,
    repeat: Repeat,
    formatContents: bool)

  /** `write_text_file`: the template loses its leading whitespace first and
      is formatted afterwards, when formatting is on. */
  function TextBody(template: string, format: bool, ctx: Ctx): (r: Result<string>)
    ensures !format ==> r.Ok?
    ensures !format ==>
      && |r.value| <= |template|
      && template == template[..|template| - |r.value|] + r.value
      && (forall i :: 0 <= i < |template| - |r.value| ==> IsSpace(template[i]))
      && (r.value == [] || !IsSpace(r.value[0]))
    ensures format && NoBraces(template) ==> r == Ok(LStrip(template))
  {
    var stripped := LStrip(template);
    if format then
      if NoBraces(template) then
        assert NoBraces(stripped) by {
          forall i | 0 <= i < |stripped| ensures stripped[i] != '{' && stripped[i] != '}' {
            assert stripped[i] == template[|template| - |stripped| + i];
          }
        }
        SubstNoBraces(ctx, stripped);
        Subst(ctx, stripped)
      else
        Subst(ctx, stripped)
    else
      assert template == template[..|template| - |stripped|] + stripped;
      Ok(stripped)
  }

  /** Leading whitespace of the template is dropped, but whitespace a
      placeholder brings in is kept: stripping precedes substitution. */
  lemma TextBodyStripsBeforeFormatting(ctx: Ctx, ws: string, name: string, b: string)
    requires forall i :: 0 <= i < |ws| ==> IsSpace(ws[i])
    requires SimpleName(name) && name in ctx && ctx[name].VStr?
    ensures TextBody(ws + "{" + name + "}" + Escape(b), true, ctx) == Ok(ctx[name].s + b)
  {
    var t := "{" + name + "}" + Escape(b);
    assert ws + "{" + name + "}" + Escape(b) == ws + t;
    LStripSpacePrefix(ws, t);
    assert LStrip(ws + t) == t;
    assert TextBody(ws + t, true, ctx) == Subst(ctx, t);
    SubstLeadingField(ctx, name, b);
  }

  lemma {:induction false} LStripSpacePrefix(ws: string, t: string)
    requires forall i :: 0 <= i < |ws| ==> IsSpace(ws[i])
    requires t == [] || !IsSpace(t[0])
    ensures LStrip(ws + t) == t
    decreases |ws|
  {
    if ws == [] {
      assert ws + t == t;
    } else {
      assert (ws + t)[1..] == ws[1..] + t;
      LStripSpacePrefix(ws[1..], t);
    }
  }

  /** `write_json_file`: `json.dump(..., indent=4)` of `fmt_json` of the
      body when formatting is on, of the body itself when it is off. */
  function JsonBody(contents: Json, format: bool, ctx: Ctx): Result<string> {
    if format then
      var x :- FmtJson(ctx, contents);
      Ok(Dumps(x))
    else
      Ok(Dumps(contents))
  }

  /** With formatting on, the JSON writer dumps the value with the body's
      shape whose string leaves are the body's leaves formatted one by one,
      and fails exactly when a leaf fails, with the first leaf's error; with
      it off, it dumps the body unchanged. Either way the text is ASCII. */
  lemma JsonBodySpec(contents: Json, format: bool, ctx: Ctx)
    ensures !format ==> JsonBody(contents, format, ctx) == Ok(Dumps(contents))
    ensures format ==> (JsonBody(contents, format, ctx).Ok? <==> SubstAll(ctx, Leaves(contents)).Ok?)
    ensures format && JsonBody(contents, format, ctx).Ok? ==>
      exists x :: (JsonBody(contents, format, ctx).value == Dumps(x) && Skeleton(x) == Skeleton(contents)
        && SubstAll(ctx, Leaves(contents)) == Ok(Leaves(x)))
    ensures format && JsonBody(contents, format, ctx).Err? ==>
      JsonBody(contents, format, ctx).error == SubstAll(ctx, Leaves(contents)).error
    ensures JsonBody(contents, format, ctx).Ok? ==> AsciiText(JsonBody(contents, format, ctx).value)
  {
    if format {
      FmtJsonLeaves(ctx, contents);
      if FmtJson(ctx, contents).Ok? {
        FmtJsonSpec(ctx, contents, FmtJson(ctx, contents).value);
      }
    }
  }

  /** `write_pack_file`: a str body goes through the text writer, a dict
      body through the JSON writer, and any other body writes nothing. */
  function PackFileBody(d: Descriptor, ctx: Ctx): (r: Result<string>)
    ensures d.contents.JStr? ==> r == TextBody(d.contents.s, d.formatContents, ctx)
    ensures d.contents.JObj? ==> r == JsonBody(d.contents, d.formatContents, ctx)
    ensures !d.contents.JStr? && !d.contents.JObj? ==> r == Ok([])
    ensures d.contents.JObj? && !d.formatContents ==> r == Ok(Dumps(d.contents))
    ensures d.contents.JObj? && d.formatContents ==> (r.Ok? <==> SubstAll(ctx, Leaves(d.contents)).Ok?)
    ensures d.contents.JObj? && r.Ok? ==> AsciiText(r.value)
    ensures d.contents.JStr? && !d.formatContents ==> r.Ok? && |r.value| <= |d.contents.s|
  {
    match d.contents
    case JStr(s) => TextBody(s, d.formatContents, ctx)
    case JObj(_) =>
      JsonBodySpec(d.contents, d.formatContents, ctx);
      JsonBody(d.contents, d.formatContents, ctx)
    case _ => Ok([])
  }

  /** Writing a body fails only while formatting it, never with an error
      the pack writers catch. */
  lemma PackFileBodyNotCaught(d: Descriptor, ctx: Ctx)
    ensures PackFileBody(d, ctx).Err? ==> !Caught(PackFileBody(d, ctx).error)
  {
    match d.contents
    case JStr(s) =>
      SubstNotCaught(ctx, LStrip(s));
    case JObj(_) =>
      JsonBodySpec(d.contents, d.formatContents, ctx);
      SubstAllNotCaught(ctx, Leaves(d.contents));
    case _ =>
  }
}
