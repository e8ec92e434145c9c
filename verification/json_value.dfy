/** The JSON-like bodies of file templates: Python dicts (kept as ordered
    member lists, since dict iteration follows insertion order), lists, and
    the scalar leaves strings, ints, booleans and None. */
module JsonValue {
  import opened Errors

  datatype Json =
    | JStr(s: string)
    | JNum(n: int)
    | JBool(b: bool)
    | JNull
    | JObj(members: seq<(string, Json)>)
    | JArr(items: seq<Json>)

  /** The value with every string leaf emptied: what stays fixed when only
      string leaves are rewritten. Keys, list lengths and the other leaves
      are kept. */
  function Skeleton(j: Json): Json
    decreases j, 1
  {
    match j
    case JStr(_) => JStr([])
    case JObj(ms) => JObj(SkeletonMembers(ms))
    case JArr(xs) => JArr(SkeletonItems(xs))
    case _ => j
  }

  function SkeletonMembers(ms: seq<(string, Json)>): seq<(string, Json)>
    decreases ms, 0
  {
    if ms == [] then [] else assert ms[0].1 < ms[0]; [(ms[0].0, Skeleton(ms[0].1))] + SkeletonMembers(ms[1..])
  }

  function SkeletonItems(xs: seq<Json>): seq<Json>
    decreases xs, 0
  {
    if xs == [] then [] else [Skeleton(xs[0])] + SkeletonItems(xs[1..])
  }

  /** The string leaves, depth first and in member order; dict keys are not
      leaves. */
  function Leaves(j: Json): seq<string>
    decreases j, 1
  {
    match j
    case JStr(s) => [s]
    case JObj(ms) => MemberLeaves(ms)
    case JArr(xs) => ItemLeaves(xs)
    case _ => []
  }

  function MemberLeaves(ms: seq<(string, Json)>): seq<string>
    decreases ms, 0
  {
    if ms == [] then [] else assert ms[0].1 < ms[0]; Leaves(ms[0].1) + MemberLeaves(ms[1..])
  }

  function ItemLeaves(xs: seq<Json>): seq<string>
    decreases xs, 0
  {
    if xs == [] then [] else Leaves(xs[0]) + ItemLeaves(xs[1..])
  }

  function Keys(ms: seq<(string, Json)>): seq<string> {
    seq(|ms|, i requires 0 <= i < |ms| => ms[i].0)
  }

  /** `d.get(k)` on a dict: the value of the member named `k`, if any. */
  function Get(ms: seq<(string, Json)>, k: string): (r: Option<Json>)
    ensures r.Some? <==> k in Keys(ms)
    ensures r.Some? ==> exists i :: 0 <= i < |ms| && ms[i] == (k, r.value)
    decreases |ms|
  {
    if ms == [] then None
    else if ms[0].0 == k then
      assert Keys(ms)[0] == k;
      Some(ms[0].1)
    else
      var r := Get(ms[1..], k);
      assert Keys(ms) == [ms[0].0] + Keys(ms[1..]);
      if r.Some? then
        var i :| 0 <= i < |ms[1..]| && ms[1..][i] == (k, r.value);
        assert ms[i + 1] == (k, r.value);
        r
      else r
  }

  /** Equal skeletons mean equal shape: an object keeps its keys in order,
      a list keeps its length, and a non-string leaf is unchanged. */
  lemma SkeletonShape(a: Json, b: Json)
    requires Skeleton(a) == Skeleton(b)
    ensures a.JStr? <==> b.JStr?
    ensures a.JObj? ==> b.JObj? && Keys(a.members) == Keys(b.members)
    ensures a.JArr? ==> b.JArr? && |a.items| == |b.items|
    ensures !a.JStr? && !a.JObj? && !a.JArr? ==> a == b
  {
    match a
    case JObj(ms) => SkeletonMembersKeys(ms, b.members);
    case JArr(xs) => SkeletonItemsLength(xs, b.items);
    case _ =>
  }

  lemma {:induction false} SkeletonMembersKeys(ms: seq<(string, Json)>, ns: seq<(string, Json)>)
    requires SkeletonMembers(ms) == SkeletonMembers(ns)
    ensures Keys(ms) == Keys(ns)
  {
    if ms != [] && ns != [] {
      assert SkeletonMembers(ms)[0] == SkeletonMembers(ns)[0];
      assert SkeletonMembers(ms)[1..] == SkeletonMembers(ns)[1..];
      SkeletonMembersKeys(ms[1..], ns[1..]);
      assert Keys(ms) == [ms[0].0] + Keys(ms[1..]);
      assert Keys(ns) == [ns[0].0] + Keys(ns[1..]);
    }
  }

  lemma {:induction false} SkeletonItemsLength(xs: seq<Json>, ys: seq<Json>)
    requires SkeletonItems(xs) == SkeletonItems(ys)
    ensures |xs| == |ys|
  {
    if xs != [] && ys != [] {
      assert SkeletonItems(xs)[1..] == SkeletonItems(ys)[1..];
      SkeletonItemsLength(xs[1..], ys[1..]);
    }
  }

  /** A value is determined by its skeleton and its string leaves, so a
      rewrite that fixes the skeleton is fully described by what it does to
      the leaves. */
  lemma {:induction false} SkeletonLeavesDetermine(a: Json, b: Json)
    requires Skeleton(a) == Skeleton(b) && Leaves(a) == Leaves(b)
    ensures a == b
    decreases a, 1
  {
    match a
    case JStr(_) =>
    case JObj(ms) => MembersDetermine(ms, b.members);
    case JArr(xs) => ItemsDetermine(xs, b.items);
    case _ =>
  }

  lemma {:induction false} MembersDetermine(ms: seq<(string, Json)>, ns: seq<(string, Json)>)
    requires SkeletonMembers(ms) == SkeletonMembers(ns) && MemberLeaves(ms) == MemberLeaves(ns)
    ensures ms == ns
    decreases ms, 0
  {
    if ms != [] && ns != [] {
      assert SkeletonMembers(ms)[0] == SkeletonMembers(ns)[0];
      assert SkeletonMembers(ms)[1..] == SkeletonMembers(ns)[1..];
      LeafCount(ms[0].1, ns[0].1);
      var k := |Leaves(ms[0].1)|;
      assert Leaves(ms[0].1) == MemberLeaves(ms)[..k];
      assert Leaves(ns[0].1) == MemberLeaves(ns)[..k];
      assert MemberLeaves(ms[1..]) == MemberLeaves(ms)[k..];
      assert MemberLeaves(ns[1..]) == MemberLeaves(ns)[k..];
      assert ms[0].1 < ms[0];
      SkeletonLeavesDetermine(ms[0].1, ns[0].1);
      MembersDetermine(ms[1..], ns[1..]);
      assert ms == [ms[0]] + ms[1..];
      assert ns == [ns[0]] + ns[1..];
    }
  }

  lemma {:induction false} ItemsDetermine(xs: seq<Json>, ys: seq<Json>)
    requires SkeletonItems(xs) == SkeletonItems(ys) && ItemLeaves(xs) == ItemLeaves(ys)
    ensures xs == ys
    decreases xs, 0
  {
    if xs != [] && ys != [] {
      assert SkeletonItems(xs)[0] == SkeletonItems(ys)[0];
      assert SkeletonItems(xs)[1..] == SkeletonItems(ys)[1..];
      LeafCount(xs[0], ys[0]);
      var k := |Leaves(xs[0])|;
      assert Leaves(xs[0]) == ItemLeaves(xs)[..k];
      assert Leaves(ys[0]) == ItemLeaves(ys)[..k];
      assert ItemLeaves(xs[1..]) == ItemLeaves(xs)[k..];
      assert ItemLeaves(ys[1..]) == ItemLeaves(ys)[k..];
      SkeletonLeavesDetermine(xs[0], ys[0]);
      ItemsDetermine(xs[1..], ys[1..]);
      assert xs == [xs[0]] + xs[1..];
      assert ys == [ys[0]] + ys[1..];
    }
  }

  /** Values with one skeleton have the same number of string leaves. */
  lemma {:induction false} LeafCount(a: Json, b: Json)
    requires Skeleton(a) == Skeleton(b)
    ensures |Leaves(a)| == |Leaves(b)|
    decreases a, 1
  {
    match a
    case JObj(ms) => MemberLeafCount(ms, b.members);
    case JArr(xs) => ItemLeafCount(xs, b.items);
    case _ =>
  }

  lemma {:induction false} MemberLeafCount(ms: seq<(string, Json)>, ns: seq<(string, Json)>)
    requires SkeletonMembers(ms) == SkeletonMembers(ns)
    ensures |MemberLeaves(ms)| == |MemberLeaves(ns)|
    decreases ms, 0
  {
    if ms != [] && ns != [] {
      assert SkeletonMembers(ms)[0] == SkeletonMembers(ns)[0];
      assert SkeletonMembers(ms)[1..] == SkeletonMembers(ns)[1..];
      assert ms[0].1 < ms[0];
      LeafCount(ms[0].1, ns[0].1);
      MemberLeafCount(ms[1..], ns[1..]);
    }
  }

  lemma {:induction false} ItemLeafCount(xs: seq<Json>, ys: seq<Json>)
    requires SkeletonItems(xs) == SkeletonItems(ys)
    ensures |ItemLeaves(xs)| == |ItemLeaves(ys)|
    decreases xs, 0
  {
    if xs != [] && ys != [] {
      assert SkeletonItems(xs)[0] == SkeletonItems(ys)[0];
      assert SkeletonItems(xs)[1..] == SkeletonItems(ys)[1..];
      LeafCount(xs[0], ys[0]);
      ItemLeafCount(xs[1..], ys[1..]);
    }
  }
}
