/** One music disc to embed, and how it appears to the templates. */
module Discs {
  import opened Format

  /** A disc entry: display name, internal name (used in file names), source audio and
      texture files, and the assigned `custom_model_data` index. */
  datatype DiscEntry = DiscEntry(
    title: string,
    internalName: string,
    trackFile: string,
    textureFile: string,
    customModelData: int)

  /** The entry as the object a field such as `{entry.internal_name}` reads. */
  function EntryVal(e: DiscEntry): Val {
    VObj(map[
      "title" := VStr(e.title),
      "internal_name" := VStr(e.internalName),
      "track_file" := VStr(e.trackFile),
      "texture_file" := VStr(e.textureFile),
      "custom_model_data" := VInt(e.customModelData)])
  }

  /** The context a per-entry write formats against: the caller's context
      with `entry` bound to the current entry. */
  function WithEntry(ctx: Ctx, e: DiscEntry): Ctx {
    ctx["entry" := EntryVal(e)]
  }

  function InternalNames(es: seq<DiscEntry>): (names: seq<string>)
    ensures |names| == |es|
    ensures forall i :: 0 <= i < |es| ==> names[i] == es[i].internalName
  {
    seq(|es|, i requires 0 <= i < |es| => es[i].internalName)
  }
}
