/** The two formatters of `GeneratorV2`: `fmt_json`, which rebuilds a dict or
    list and formats every string leaf, and `fmt_path`, which formats each
    path segment and joins them. */
module Formatter {
  import opened Errors
  import opened Strings
  import opened JsonValue
  import opened Format
  import opened Paths

  /** `fmt_json(obj, ctx)`: strings are formatted, dicts and lists are
      rebuilt member by member in order, every other leaf is copied. The
      first failing leaf, depth first, fails the call. */
  function FmtJson(ctx: Ctx, j: Json): (r: Result<Json>)
    ensures r.Ok? ==> Skeleton(r.value) == Skeleton(j)
    decreases j, 1
  {
    match j
    case JStr(s) =>
      var t :- Subst(ctx, s);
      Ok(JStr(t))
    case JObj(ms) =>
      var ms' :- FmtMembers(ctx, ms);
      Ok(JObj(ms'))
    case JArr(xs) =>
      var xs' :- FmtItems(ctx, xs);
      Ok(JArr(xs'))
    case _ => Ok(j)
  }

  function FmtMembers(ctx: Ctx, ms: seq<(string, Json)>): (r: Result<seq<(string, Json)>>)
    ensures r.Ok? ==> SkeletonMembers(r.value) == SkeletonMembers(ms)
    decreases ms, 0
  {
    if ms == [] then Ok([])
    else
      assert ms[0].1 < ms[0];
      var v :- FmtJson(ctx, ms[0].1);
      var rest :- FmtMembers(ctx, ms[1..]);
      Ok([(ms[0].0, v)] + rest)
  }

  function FmtItems(ctx: Ctx, xs: seq<Json>): (r: Result<seq<Json>>)
    ensures r.Ok? ==> SkeletonItems(r.value) == SkeletonItems(xs)
    decreases xs, 0
  {
    if xs == [] then Ok([])
    else
      var v :- FmtJson(ctx, xs[0]);
      var rest :- FmtItems(ctx, xs[1..]);
      Ok([v] + rest)
  }

  /** The string leaves of a result, or its failure. */
  function LeavesOf(r: Result<Json>): Result<seq<string>> {
    if r.Ok? then Ok(Leaves(r.value)) else Err(r.error)
  }

  function MemberLeavesOf(r: Result<seq<(string, Json)>>): Result<seq<string>> {
    if r.Ok? then Ok(MemberLeaves(r.value)) else Err(r.error)
  }

  function ItemLeavesOf(r: Result<seq<Json>>): Result<seq<string>> {
    if r.Ok? then Ok(ItemLeaves(r.value)) else Err(r.error)
  }

  /** The leaves of the formatted value are the formatted leaves, in order;
      the call fails exactly when some leaf fails, with the first failure. */
  lemma {:induction false} FmtJsonLeaves(ctx: Ctx, j: Json)
    ensures LeavesOf(FmtJson(ctx, j)) == SubstAll(ctx, Leaves(j))
    decreases j, 1
  {
    match j
    case JStr(s) =>
      assert [s][1..] == [];
      if Subst(ctx, s).Ok? {
        assert [Subst(ctx, s).value] + [] == [Subst(ctx, s).value];
      }
    case JObj(ms) => FmtMembersLeaves(ctx, ms);
    case JArr(xs) => FmtItemsLeaves(ctx, xs);
    case _ =>
  }

  lemma {:induction false} FmtMembersLeaves(ctx: Ctx, ms: seq<(string, Json)>)
    ensures MemberLeavesOf(FmtMembers(ctx, ms)) == SubstAll(ctx, MemberLeaves(ms))
    decreases ms, 0
  {
    if ms != [] {
      assert ms[0].1 < ms[0];
      FmtJsonLeaves(ctx, ms[0].1);
      FmtMembersLeaves(ctx, ms[1..]);
      SubstAllAppend(ctx, Leaves(ms[0].1), MemberLeaves(ms[1..]));
      var v := FmtJson(ctx, ms[0].1);
      var rest := FmtMembers(ctx, ms[1..]);
      if v.Ok? && rest.Ok? {
        var out := [(ms[0].0, v.value)] + rest.value;
        assert out[0] == (ms[0].0, v.value);
        assert out[1..] == rest.value;
        assert MemberLeaves(out) == Leaves(v.value) + MemberLeaves(rest.value);
      }
    }
  }

  lemma {:induction false} FmtItemsLeaves(ctx: Ctx, xs: seq<Json>)
    ensures ItemLeavesOf(FmtItems(ctx, xs)) == SubstAll(ctx, ItemLeaves(xs))
    decreases xs, 0
  {
    if xs != [] {
      FmtJsonLeaves(ctx, xs[0]);
      FmtItemsLeaves(ctx, xs[1..]);
      SubstAllAppend(ctx, Leaves(xs[0]), ItemLeaves(xs[1..]));
      var v := FmtJson(ctx, xs[0]);
      var rest := FmtItems(ctx, xs[1..]);
      if v.Ok? && rest.Ok? {
        var out := [v.value] + rest.value;
        assert out[0] == v.value;
        assert out[1..] == rest.value;
        assert ItemLeaves(out) == Leaves(v.value) + ItemLeaves(rest.value);
      }
    }
  }

  /** `fmt_json` is characterised without reference to its body: its result
      is the one value with the input's skeleton whose string leaves are the
      input's leaves, each formatted. */
  lemma FmtJsonSpec(ctx: Ctx, j: Json, x: Json)
    ensures FmtJson(ctx, j) == Ok(x) <==>
      Skeleton(x) == Skeleton(j) && SubstAll(ctx, Leaves(j)) == Ok(Leaves(x))
  {
    FmtJsonLeaves(ctx, j);
    var r := FmtJson(ctx, j);
    if Skeleton(x) == Skeleton(j) && SubstAll(ctx, Leaves(j)) == Ok(Leaves(x)) {
      assert r.Ok?;
      SkeletonLeavesDetermine(r.value, x);
    }
  }

  /** Shape is preserved: a dict keeps its keys in order, a list its length,
      and a leaf that is not a string comes back unchanged. */
  lemma FmtJsonShape(ctx: Ctx, j: Json)
    requires FmtJson(ctx, j).Ok?
    ensures var r := FmtJson(ctx, j).value;
      && (j.JObj? ==> r.JObj? && Keys(r.members) == Keys(j.members))
      && (j.JArr? ==> r.JArr? && |r.items| == |j.items|)
      && (j.JStr? ==> r.JStr?)
      && (!j.JStr? && !j.JObj? && !j.JArr? ==> r == j)
  {
    SkeletonShape(FmtJson(ctx, j).value, j);
  }

  /** The call fails exactly when one of the string leaves fails, and then
      with the error of the first failing leaf. */
  lemma FmtJsonFailure(ctx: Ctx, j: Json)
    ensures FmtJson(ctx, j).Ok? <==> forall i :: 0 <= i < |Leaves(j)| ==> Subst(ctx, Leaves(j)[i]).Ok?
    ensures FmtJson(ctx, j).Err? ==>
      exists i :: (0 <= i < |Leaves(j)| && (forall k :: 0 <= k < i ==> Subst(ctx, Leaves(j)[k]).Ok?)
        && Subst(ctx, Leaves(j)[i]) == Err(FmtJson(ctx, j).error))
  {
    FmtJsonLeaves(ctx, j);
    SubstAllPointwise(ctx, Leaves(j));
  }

  /** A value whose string leaves hold no braces is returned as it is, in
      any context: formatting a fully resolved body again is a no-op. */
  lemma FmtJsonResolved(ctx: Ctx, j: Json)
    requires forall i :: 0 <= i < |Leaves(j)| ==> NoBraces(Leaves(j)[i])
    ensures FmtJson(ctx, j) == Ok(j)
  {
    var ls := Leaves(j);
    forall i | 0 <= i < |ls| ensures Subst(ctx, ls[i]) == Ok(ls[i]) {
      SubstNoBraces(ctx, ls[i]);
    }
    SubstAllPointwise(ctx, ls);
    assert SubstAll(ctx, ls).value == ls;
    FmtJsonSpec(ctx, j, j);
  }

  /** `fmt_path(path, ctx)`: every segment formatted, in order, then joined
      with `os.path.join`, which needs at least one segment. */
  function FmtPath(ctx: Ctx, segs: seq<string>): (r: Result<string>)
  {
    var parts :- SubstAll(ctx, segs);
    if parts == [] then Err(NoPathSegments) else Ok(PathJoin(parts))
  }

  /** A path fails with a formatting error or for want of segments, never
      with an error the pack writers catch. */
  lemma FmtPathNotCaught(ctx: Ctx, segs: seq<string>)
    ensures FmtPath(ctx, segs).Err? ==> !Caught(FmtPath(ctx, segs).error)
  {
    SubstAllNotCaught(ctx, segs);
  }

  /** The path resolves exactly when there is a segment and each segment
      formats; when the formatted segments are plain, splitting the path at
      `/` gives back exactly those segments, one per template segment. */
  lemma FmtPathSegments(ctx: Ctx, segs: seq<string>)
    ensures FmtPath(ctx, segs).Ok? <==>
      segs != [] && forall i :: 0 <= i < |segs| ==> Subst(ctx, segs[i]).Ok?
    ensures FmtPath(ctx, segs).Ok? && (forall i :: 0 <= i < |segs| ==> Plain(Subst(ctx, segs[i]).value)) ==>
      var parts := Split(FmtPath(ctx, segs).value, '/');
      |parts| == |segs| && forall i :: 0 <= i < |segs| ==> parts[i] == Subst(ctx, segs[i]).value
  {
    SubstAllPointwise(ctx, segs);
    var r := SubstAll(ctx, segs);
    if r.Ok? && segs != [] && (forall i :: 0 <= i < |segs| ==> Plain(Subst(ctx, segs[i]).value)) {
      assert AllPlain(r.value);
      PathJoinSplit(r.value);
    }
  }

  /** A path that resolves in a context resolves to the same path in every
      larger context. */
  lemma FmtPathExtend(ctx: Ctx, ctx': Ctx, segs: seq<string>)
    requires forall k :: k in ctx ==> k in ctx' && ctx'[k] == ctx[k]
    requires FmtPath(ctx, segs).Ok?
    ensures FmtPath(ctx', segs) == FmtPath(ctx, segs)
  {
    SubstAllPointwise(ctx, segs);
    forall i | 0 <= i < |segs| ensures Subst(ctx', segs[i]) == Subst(ctx, segs[i]) {
      SubstExtend(ctx, ctx', segs[i]);
    }
    SubstAllPointwise(ctx', segs);
    assert SubstAll(ctx', segs).value == SubstAll(ctx, segs).value;
  }
}
