/** Disc numbering: the `custom_model_data` index each disc receives in
    `generate_datapack`, and the item models `write_item_models` writes for
    the resource pack, whose override list repeats the same numbering. */
module Numbering {
  import opened Errors
  import opened JsonValue
  import opened Discs

  /** The index of the disc at position `i`: one past the offset for the first. */
  function ModelData(offset: int, i: nat): int {
    i + offset + 1
  }

  /** `for i, entry in enumerate(entries): entry.custom_model_data = i + offset + 1`. */
  method AssignModelData(entries: seq<DiscEntry>, offset: int) returns (r: seq<DiscEntry>)
    ensures |r| == |entries|
    ensures forall i :: 0 <= i < |r| ==> r[i].customModelData == offset + 1 + i
    ensures forall i :: 0 <= i < |r| ==> r[i].(customModelData := entries[i].customModelData) == entries[i]
    ensures |r| > 0 ==> r[0].customModelData == offset + 1 && r[|r| - 1].customModelData == offset + |r|
    ensures forall i, j :: 0 <= i < j < |r| ==> r[i].customModelData < r[j].customModelData
    ensures forall i :: 0 <= i < |r| - 1 ==> r[i + 1].customModelData == r[i].customModelData + 1
  {
    r := entries;
    var i := 0;
    while i < |entries|
      invariant 0 <= i <= |entries| && |r| == |entries|
      invariant forall k :: 0 <= k < i ==> r[k] == entries[k].(customModelData := ModelData(offset, k))
      invariant forall k :: i <= k < |r| ==> r[k] == entries[k]
    {
      r := r[i := r[i].(customModelData := ModelData(offset, i))];
      i := i + 1;
    }
  }

  /** One element of the `overrides` list of `music_disc_11.json`. */
  function OverrideEntry(j: int, name: string): Json {
    JObj([
      ("predicate", JObj([("custom_model_data", JNum(j))])),
      ("model", JStr("item/music_disc_" + name))])
  }

  /** The `overrides` list: one element per internal name, in order. */
  function Overrides(names: seq<string>, offset: int): seq<Json> {
    seq(|names|, i requires 0 <= i < |names| => OverrideEntry(ModelData(offset, i), names[i]))
  }

  /** The contents of `music_disc_11.json`. */
  function MusicDisc11(names: seq<string>, offset: int): Json {
    JObj([
      ("parent", JStr("item/generated")),
      ("textures", JObj([("layer0", JStr("item/music_disc_11"))])),
      ("overrides", JArr(Overrides(names, offset)))])
  }

  /** The contents of `music_disc_<name>.json`. */
  function ItemModel(name: string): Json {
    JObj([
      ("parent", JStr("item/generated")),
      ("textures", JObj([("layer0", JStr("item/music_disc_" + name))]))])
  }

  /** What a game reading an override element sees: the index its predicate
      tests and the model it selects. */
  function OverrideIndex(o: Json): Option<int> {
    if !o.JObj? then None
    else match Get(o.members, "predicate")
      case Some(JObj(p)) =>
        (match Get(p, "custom_model_data")
         case Some(JNum(j)) => Some(j)
         case _ => None)
      case _ => None
  }

  function OverrideModel(o: Json): Option<string> {
    if !o.JObj? then None
    else match Get(o.members, "model")
      case Some(JStr(m)) => Some(m)
      case _ => None
  }

  /** The override list mirrors the datapack numbering: element `i` tests the
      index disc `i` was given and selects that disc's model, for the same
      entry list and offset. */
  lemma OverridesMirrorNumbering(entries: seq<DiscEntry>, offset: int, numbered: seq<DiscEntry>)
    requires |numbered| == |entries|
    requires forall i :: 0 <= i < |numbered| ==> numbered[i].customModelData == offset + 1 + i
    requires forall i :: 0 <= i < |numbered| ==> numbered[i].internalName == entries[i].internalName
    ensures |Overrides(InternalNames(entries), offset)| == |numbered|
    ensures forall i :: 0 <= i < |numbered| ==>
      && OverrideIndex(Overrides(InternalNames(entries), offset)[i]) == Some(numbered[i].customModelData)
      && OverrideModel(Overrides(InternalNames(entries), offset)[i]) == Some("item/music_disc_" + numbered[i].internalName)
  {
    var os := Overrides(InternalNames(entries), offset);
    forall i | 0 <= i < |numbered|
      ensures OverrideIndex(os[i]) == Some(numbered[i].customModelData)
      ensures OverrideModel(os[i]) == Some("item/music_disc_" + numbered[i].internalName)
    {
      OverrideReadBack(ModelData(offset, i), entries[i].internalName);
    }
  }

  /** Reading an override element gives back the index and model it was built from. */
  lemma OverrideReadBack(j: int, name: string)
    ensures OverrideIndex(OverrideEntry(j, name)) == Some(j)
    ensures OverrideModel(OverrideEntry(j, name)) == Some("item/music_disc_" + name)
  {
    var ms := OverrideEntry(j, name).members;
    assert Get(ms, "predicate") == Some(JObj([("custom_model_data", JNum(j))]));
    assert ms[1..][0].0 == "model";
    assert Get(ms, "model") == Some(JStr("item/music_disc_" + name));
  }
}
