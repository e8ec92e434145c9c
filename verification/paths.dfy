/** POSIX path joining and `dirname`, as `os.path` computes them. */
module Paths {
  import opened Strings

  /** `os.path.join(a, b)`: an absolute `b` replaces `a`; otherwise one `/`
      is put between them unless `a` is empty or already ends in one. */
  function Join2(a: string, b: string): string {
    if b != [] && b[0] == '/' then b
    else if a == [] || a[|a| - 1] == '/' then a + b
    else a + "/" + b
  }

  /** `os.path.join(*parts)`, folding from the left. */
  function PathJoin(parts: seq<string>): string
    requires |parts| >= 1
    decreases |parts|
  {
    if |parts| == 1 then parts[0] else Join2(PathJoin(parts[..|parts| - 1]), parts[|parts| - 1])
  }

  /** A segment that is neither empty nor contains a separator. */
  predicate Plain(seg: string) {
    seg != [] && '/' !in seg
  }

  predicate AllPlain(parts: seq<string>) {
    forall i :: 0 <= i < |parts| ==> Plain(parts[i])
  }

  /** Joining plain segments puts exactly one `/` between neighbours, and the
      result neither is empty nor ends in `/`. */
  lemma {:induction false} PathJoinPlain(parts: seq<string>)
    requires |parts| >= 1 && AllPlain(parts)
    ensures PathJoin(parts) == Intercalate(parts, '/')
    ensures PathJoin(parts) != [] && PathJoin(parts)[|PathJoin(parts)| - 1] != '/'
    decreases |parts|
  {
    var n := |parts|;
    assert Plain(parts[n - 1]);
    assert parts[n - 1][|parts[n - 1]| - 1] in parts[n - 1];
    if n > 1 {
      var init := parts[..n - 1];
      assert AllPlain(init) by {
        forall i | 0 <= i < |init| ensures Plain(init[i]) {
          assert init[i] == parts[i];
        }
      }
      PathJoinPlain(init);
      assert parts[n - 1][0] in parts[n - 1];
      IntercalateSnoc(init, parts[n - 1], '/');
      assert init + [parts[n - 1]] == parts;
    }
  }

  /** Splitting a join of plain segments at `/` gives the segments back. */
  lemma PathJoinSplit(parts: seq<string>)
    requires |parts| >= 1 && AllPlain(parts)
    ensures Split(PathJoin(parts), '/') == parts
  {
    PathJoinPlain(parts);
    SplitIntercalate(parts, '/');
  }

  /** Length of `p` up to and including its last `/`, or 0 without one. */
  function LastSlashEnd(p: string): (i: nat)
    ensures i <= |p|
    ensures i > 0 ==> p[i - 1] == '/'
    ensures forall j :: i <= j < |p| ==> p[j] != '/'
    decreases |p|
  {
    if p == [] then 0
    else if p[|p| - 1] == '/' then |p|
    else LastSlashEnd(p[..|p| - 1])
  }

  function RStripSlashes(h: string): string
    decreases |h|
  {
    if h != [] && h[|h| - 1] == '/' then RStripSlashes(h[..|h| - 1]) else h
  }

  predicate AllSlashes(h: string) {
    forall i :: 0 <= i < |h| ==> h[i] == '/'
  }

  /** `os.path.dirname(p)`: everything before the last `/`, with trailing
      slashes removed unless the head is nothing but slashes. */
  function Dirname(p: string): string {
    var head := p[..LastSlashEnd(p)];
    if head != [] && !AllSlashes(head) then RStripSlashes(head) else head
  }

  /** A lone plain segment has an empty directory part. */
  lemma DirnamePlain(seg: string)
    requires Plain(seg)
    ensures Dirname(seg) == []
  {
    assert forall k :: 0 <= k < |seg| ==> seg[k] != '/' by {
      forall k | 0 <= k < |seg| ensures seg[k] != '/' {
        assert seg[k] in seg;
      }
    }
  }

  /** Text without a separator after `q` leaves its last `/` where it was. */
  lemma {:induction false} LastSlashNoSlashTail(q: string, y: string)
    requires '/' !in y
    ensures LastSlashEnd(q + y) == LastSlashEnd(q)
    decreases |y|
  {
    if y == [] {
      assert q + y == q;
    } else {
      var p := q + y;
      assert y[|y| - 1] in y;
      assert p[|p| - 1] == y[|y| - 1];
      assert p[..|p| - 1] == q + y[..|y| - 1];
      var init := y[..|y| - 1];
      assert '/' !in init by {
        forall k | 0 <= k < |init| ensures init[k] != '/' {
          assert init[k] == y[k] && y[k] in y;
        }
      }
      LastSlashNoSlashTail(q, y[..|y| - 1]);
    }
  }

  /** The directory part of `a + "/" + x` is `a` when `a` is non-empty and
      does not end in `/`. */
  lemma DirnameOfSuffix(a: string, x: string)
    requires Plain(x) && a != [] && a[|a| - 1] != '/'
    ensures Dirname(a + "/" + x) == a
  {
    var q := a + "/";
    assert a + "/" + x == q + x;
    LastSlashNoSlashTail(q, x);
    assert LastSlashEnd(q) == |q|;
    var head := (q + x)[..|q|];
    assert head == q;
    assert head[|a| - 1] == a[|a| - 1];
    assert !AllSlashes(head);
    assert head[..|head| - 1] == a;
    assert RStripSlashes(head) == RStripSlashes(a);
    assert RStripSlashes(a) == a;
  }

  /** A join of two or more plain segments is the join of all but the last,
      a `/` and the last. */
  lemma JoinLast(parts: seq<string>)
    requires |parts| >= 2 && AllPlain(parts)
    ensures var j := PathJoin(parts[..|parts| - 1]);
      && j != [] && j[|j| - 1] != '/'
      && PathJoin(parts) == j + "/" + parts[|parts| - 1]
  {
    var n := |parts|;
    var init := parts[..n - 1];
    var x := parts[n - 1];
    assert AllPlain(init) by {
      forall i | 0 <= i < |init| ensures Plain(init[i]) {
        assert init[i] == parts[i];
      }
    }
    PathJoinPlain(init);
    assert Plain(x);
    assert x[0] in x;
  }

  /** The directory part of a join of two or more plain segments is the join
      of all but the last, which is never empty. */
  lemma DirnameOfJoin(parts: seq<string>)
    requires |parts| >= 2 && AllPlain(parts)
    ensures Dirname(PathJoin(parts)) == PathJoin(parts[..|parts| - 1])
    ensures Dirname(PathJoin(parts)) != []
  {
    JoinLast(parts);
    DirnameOfSuffix(PathJoin(parts[..|parts| - 1]), parts[|parts| - 1]);
  }
}
