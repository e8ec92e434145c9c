/** `sounds.json` of the resource pack: one sound event per internal name,
    `music_disc.<name>`, streaming `records/<name>`. It is built as a Python
    dict, so a repeated name overwrites its earlier event in place. */
module Sounds {
  import opened Errors
  import opened JsonValue

  function EventKey(name: string): string {
    "music_disc." + name
  }

  /** Distinct names have distinct event keys. */
  lemma EventKeyInjective(a: string, b: string)
    ensures EventKey(a) == EventKey(b) ==> a == b
  {
    if EventKey(a) == EventKey(b) {
      assert a == EventKey(a)[|"music_disc."|..];
      assert b == EventKey(b)[|"music_disc."|..];
    }
  }

  /** The sound event of one disc. */
  function SoundEvent(name: string): Json {
    JObj([("sounds", JArr([JObj([("name", JStr("records/" + name)), ("stream", JBool(true))])]))])
  }

  /** `d[k] = v` on a dict: an existing key keeps its position and takes the
      new value, a new key goes last. */
  function DictSet(ms: seq<(string, Json)>, k: string, v: Json): (r: seq<(string, Json)>)
    decreases |ms|
  {
    if ms == [] then [(k, v)]
    else if ms[0].0 == k then [(k, v)] + ms[1..]
    else [ms[0]] + DictSet(ms[1..], k, v)
  }

  predicate DistinctKeys(ms: seq<(string, Json)>) {
    forall i, j :: 0 <= i < j < |Keys(ms)| ==> Keys(ms)[i] != Keys(ms)[j]
  }

  /** Assignment leaves the key order alone, appending `k` when it is new. */
  lemma {:induction false} DictSetKeyOrder(ms: seq<(string, Json)>, k: string, v: Json)
    ensures Keys(DictSet(ms, k, v)) == if k in Keys(ms) then Keys(ms) else Keys(ms) + [k]
    decreases |ms|
  {
    if ms != [] {
      assert Keys(ms) == [ms[0].0] + Keys(ms[1..]);
      var r := DictSet(ms, k, v);
      if ms[0].0 == k {
        assert Keys(r) == [k] + Keys(ms[1..]);
      } else {
        DictSetKeyOrder(ms[1..], k, v);
        assert Keys(r) == [ms[0].0] + Keys(DictSet(ms[1..], k, v));
      }
    }
  }

  /** So keys that were distinct stay distinct. */
  lemma DictSetKeys(ms: seq<(string, Json)>, k: string, v: Json)
    ensures Keys(DictSet(ms, k, v)) == if k in Keys(ms) then Keys(ms) else Keys(ms) + [k]
    ensures DistinctKeys(ms) ==> DistinctKeys(DictSet(ms, k, v))
  {
    DictSetKeyOrder(ms, k, v);
    var ks := Keys(ms);
    if DistinctKeys(ms) && k !in ks {
      var ks' := Keys(DictSet(ms, k, v));
      forall i, j | 0 <= i < j < |ks'| ensures ks'[i] != ks'[j] {
        if j == |ks| {
          assert ks'[i] == ks[i];
        } else {
          assert ks'[i] == ks[i] && ks'[j] == ks[j];
        }
      }
    }
  }

  /** After assignment `k` reads `v`, and every other key reads as before. */
  lemma {:induction false} DictSetGet(ms: seq<(string, Json)>, k: string, v: Json, k': string)
    ensures Get(DictSet(ms, k, v), k') == if k' == k then Some(v) else Get(ms, k')
    decreases |ms|
  {
    if ms != [] && ms[0].0 != k {
      DictSetGet(ms[1..], k, v, k');
      assert DictSet(ms, k, v)[1..] == DictSet(ms[1..], k, v);
    } else if ms != [] {
      assert DictSet(ms, k, v)[1..] == ms[1..];
    }
  }

  /** A new key goes last, after the members that were there. */
  lemma {:induction false} DictSetNew(ms: seq<(string, Json)>, k: string, v: Json)
    requires k !in Keys(ms)
    ensures DictSet(ms, k, v) == ms + [(k, v)]
    decreases |ms|
  {
    if ms != [] {
      assert Keys(ms) == [ms[0].0] + Keys(ms[1..]);
      DictSetNew(ms[1..], k, v);
      assert [ms[0]] + (ms[1..] + [(k, v)]) == ms + [(k, v)];
    }
  }

  /** The members of `sounds.json` after assigning the first names in order. */
  function SoundsMembers(names: seq<string>): seq<(string, Json)>
    decreases |names|
  {
    if names == [] then []
    else
      var last := names[|names| - 1];
      DictSet(SoundsMembers(names[..|names| - 1]), EventKey(last), SoundEvent(last))
  }

  /** The `sounds.json` document: `json.dumps(json_dict, indent=4)` of this. */
  function SoundsJson(names: seq<string>): Json {
    JObj(SoundsMembers(names))
  }

  /** Assigning the last name changes its own key and no other. */
  lemma SoundsStep(names: seq<string>, k: string)
    requires names != []
    ensures var last := names[|names| - 1];
      Get(SoundsMembers(names), k) == if k == EventKey(last) then Some(SoundEvent(last)) else Get(SoundsMembers(names[..|names| - 1]), k)
  {
    var last := names[|names| - 1];
    DictSetGet(SoundsMembers(names[..|names| - 1]), EventKey(last), SoundEvent(last), k);
  }

  /** No key repeats, whatever the names. */
  lemma {:induction false} SoundsDistinct(names: seq<string>)
    ensures DistinctKeys(SoundsMembers(names))
    decreases |names|
  {
    if names != [] {
      var init := names[..|names| - 1];
      var last := names[|names| - 1];
      SoundsDistinct(init);
      DictSetKeys(SoundsMembers(init), EventKey(last), SoundEvent(last));
    }
  }

  /** A key is present exactly when it is the event key of some name. */
  lemma {:induction false} SoundsKeyPresent(names: seq<string>, k: string)
    ensures Get(SoundsMembers(names), k).Some? <==> exists n :: n in names && k == EventKey(n)
    decreases |names|
  {
    if names != [] {
      var init := names[..|names| - 1];
      var last := names[|names| - 1];
      SoundsStep(names, k);
      SoundsKeyPresent(init, k);
      assert names == init + [last];
      if k != EventKey(last) && exists n :: n in names && k == EventKey(n) {
        var n :| n in names && k == EventKey(n);
        assert n in init;
      }
    }
  }

  /** A name's key holds its event. */
  lemma {:induction false} SoundsEventOf(names: seq<string>, n: string)
    requires n in names
    ensures Get(SoundsMembers(names), EventKey(n)) == Some(SoundEvent(n))
    decreases |names|
  {
    var init := names[..|names| - 1];
    var last := names[|names| - 1];
    SoundsStep(names, EventKey(n));
    if EventKey(n) != EventKey(last) {
      assert names == init + [last];
      assert n in init;
      SoundsEventOf(init, n);
    } else {
      EventKeyInjective(n, last);
    }
  }

  /** Every name gets exactly its event, under its own key and under no
      other, and no key repeats, whatever the names. */
  lemma SoundsEvents(names: seq<string>)
    ensures DistinctKeys(SoundsMembers(names))
    ensures forall k :: (Get(SoundsMembers(names), k).Some? <==> exists n :: n in names && k == EventKey(n))
    ensures forall n :: n in names ==> Get(SoundsMembers(names), EventKey(n)) == Some(SoundEvent(n))
  {
    SoundsDistinct(names);
    forall k ensures Get(SoundsMembers(names), k).Some? <==> exists n :: n in names && k == EventKey(n) {
      SoundsKeyPresent(names, k);
    }
    forall n | n in names ensures Get(SoundsMembers(names), EventKey(n)) == Some(SoundEvent(n)) {
      SoundsEventOf(names, n);
    }
  }

  /** With distinct names the document lists one event per name, in the
      order of the names. */
  lemma {:induction false} SoundsInOrder(names: seq<string>)
    requires forall i, j :: 0 <= i < j < |names| ==> names[i] != names[j]
    ensures |SoundsMembers(names)| == |names|
    ensures forall i :: 0 <= i < |names| ==> SoundsMembers(names)[i] == (EventKey(names[i]), SoundEvent(names[i]))
    decreases |names|
  {
    if names != [] {
      var init := names[..|names| - 1];
      var last := names[|names| - 1];
      var ms := SoundsMembers(init);
      SoundsInOrder(init);
      forall i | 0 <= i < |ms| ensures Keys(ms)[i] != EventKey(last) {
        assert init[i] == names[i];
        EventKeyInjective(init[i], last);
      }
      DictSetNew(ms, EventKey(last), SoundEvent(last));
      assert forall i :: 0 <= i < |init| ==> init[i] == names[i];
    }
  }
}
