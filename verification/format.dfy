/** The part of Python's `str.format(**context)` the templates use: named
    fields `{name}`, dotted attribute fields `{entry.internal_name}`, and the
    brace escapes `{{` and `}}`. Text is scanned left to right and the first
    failure is the one reported, as in Python. */
module Format {
  import opened Errors
  import opened Strings

  /** A value a placeholder can reach: text, an int, or an object whose
      attributes a dotted field walks through. */
  datatype Val = VStr(s: string) | VInt(i: int) | VObj(attrs: map<string, Val>)

  /** The keyword arguments of one `str.format` call. */
  type Ctx = map<string, Val>

  /** Index of the first brace in `t`, or `|t|` when there is none. */
  function BraceIndex(t: string): (k: nat)
    ensures k <= |t|
    ensures k < |t| ==> t[k] == '{' || t[k] == '}'
    ensures forall i :: 0 <= i < k ==> t[i] != '{' && t[i] != '}'
  {
    if t == [] || t[0] == '{' || t[0] == '}' then 0 else 1 + BraceIndex(t[1..])
  }

  /** Fields with a format spec, a conversion or an index are outside the model. */
  predicate HasSpecMark(field: string) {
    ':' in field || '!' in field || '[' in field
  }

  /** A field naming one context entry directly: `{name}`. */
  predicate SimpleName(name: string) {
    && name != []
    && !AllDigits(name)
    && NoBraces(name)
    && !HasSpecMark(name)
    && '.' !in name
  }

  /** Follows `attrs` through nested objects; an empty attribute is a
      ValueError, an unknown one an AttributeError. */
  function Lookup(v: Val, attrs: seq<string>): (r: Result<Val>)
    decreases |attrs|
  {
    if attrs == [] then Ok(v)
    else if attrs[0] == [] then Err(Malformed)
    else match v
      case VObj(m) =>
        if attrs[0] in m then Lookup(m[attrs[0]], attrs[1..]) else Err(MissingAttribute(attrs[0]))
      case _ => Err(MissingAttribute(attrs[0]))
  }

  /** `format(v, '')`: text as is, an int in decimal. */
  function Render(field: string, v: Val): (r: Result<string>)
  {
    match v
    case VStr(s) => Ok(s)
    case VInt(i) => Ok(IntToString(i))
    case VObj(_) => Err(NotRenderable(field))
  }

  /** The replacement text of one field: the first dotted part is a keyword
      (empty or all digits is a positional index, and no positional argument
      is ever passed), the rest are attributes. */
  function Resolve(ctx: Ctx, field: string): (r: Result<string>)
  {
    if HasSpecMark(field) then Err(UnsupportedField(field))
    else
      var parts := Split(field, '.');
      var head := parts[0];
      if head == [] || AllDigits(head) then Err(Positional)
      else if head !in ctx then Err(MissingKey(head))
      else
        var v :- Lookup(ctx[head], parts[1..]);
        Render(field, v)
  }

  /** `a + r`, keeping a failure as it is. */
  function Prepend(a: string, r: Result<string>): Result<string> {
    if r.Ok? then Ok(a + r.value) else r
  }

  /** The field that opens `t`, the text just after a single `{`: its
      replacement text and the length it spans with its closing brace. */
  function OpenField(ctx: Ctx, t: string): (r: Result<(string, nat)>)
    ensures r.Ok? ==> 0 < r.value.1 <= |t|
  {
    var k := BraceIndex(t);
    if k == |t| then Err(Malformed)
    else if t[k] == '{' then
      if HasSpecMark(t[..k]) then Err(UnsupportedField(t[..k])) else Err(Malformed)
    else
      var v :- Resolve(ctx, t[..k]);
      Ok((v, k + 1))
  }

  /** `s.format(**ctx)`. */
  function Subst(ctx: Ctx, s: string): (r: Result<string>)
    decreases |s|
  {
    if s == [] then Ok([])
    else if s[0] == '{' then
      if |s| > 1 && s[1] == '{' then Prepend("{", Subst(ctx, s[2..]))
      else
        var f :- OpenField(ctx, s[1..]);
        Prepend(f.0, Subst(ctx, s[1..][f.1..]))
    else if s[0] == '}' then
      if |s| > 1 && s[1] == '}' then Prepend("}", Subst(ctx, s[2..])) else Err(Malformed)
    else
      Prepend([s[0]], Subst(ctx, s[1..]))
  }

  /** A character as literal template text: a brace is doubled. */
  function EscapedChar(c: char): string {
    if c == '{' || c == '}' then [c, c] else [c]
  }

  /** Text that formats to `t`: every brace doubled. */
  function Escape(t: string): (r: string)
  {
    if t == [] then [] else EscapedChar(t[0]) + Escape(t[1..])
  }

  /** Prepending twice is prepending the concatenation. */
  lemma PrependPrepend(a: string, b: string, r: Result<string>)
    ensures Prepend(a, Prepend(b, r)) == Prepend(a + b, r)
  {
    if r.Ok? {
      assert a + (b + r.value) == (a + b) + r.value;
    }
  }

  /** An escaped character formats to itself, followed by the rest. */
  lemma SubstEscapedChar(ctx: Ctx, c: char, rest: string)
    ensures Subst(ctx, EscapedChar(c) + rest) == Prepend([c], Subst(ctx, rest))
  {
    var s := EscapedChar(c) + rest;
    if c == '{' || c == '}' {
      assert s[0] == c && s[1] == c && s[2..] == rest;
    } else {
      assert s[0] == c && s[1..] == rest;
    }
  }

  /** Escaped literal text formats to itself, and the rest of the template
      is formatted after it, failing exactly when the rest fails. */
  lemma {:induction false} SubstEscape(ctx: Ctx, a: string, b: string)
    ensures Subst(ctx, Escape(a) + b) == Prepend(a, Subst(ctx, b))
  {
    if a == [] {
      assert Escape(a) + b == b;
      if Subst(ctx, b).Ok? {
        assert a + Subst(ctx, b).value == Subst(ctx, b).value;
      }
    } else {
      SubstEscape(ctx, a[1..], b);
      assert Escape(a) + b == EscapedChar(a[0]) + (Escape(a[1..]) + b);
      SubstEscapedChar(ctx, a[0], Escape(a[1..]) + b);
      PrependPrepend([a[0]], a[1..], Subst(ctx, b));
      assert [a[0]] + a[1..] == a;
    }
  }

  /** Formatting undoes escaping, for every text and every context. */
  lemma SubstEscapeRoundTrip(ctx: Ctx, t: string)
    ensures Subst(ctx, Escape(t)) == Ok(t)
  {
    SubstEscape(ctx, t, []);
    assert Escape(t) + [] == Escape(t);
    assert t + [] == t;
  }

  lemma {:induction false} EscapeNoBraces(t: string)
    requires NoBraces(t)
    ensures Escape(t) == t
  {
    if t != [] {
      EscapeNoBraces(t[1..]);
      assert [t[0]] + t[1..] == t;
    }
  }

  /** Text without braces is a fixed point of formatting, whatever the
      context: formatting fully resolved text again changes nothing. */
  lemma SubstNoBraces(ctx: Ctx, s: string)
    requires NoBraces(s)
    ensures Subst(ctx, s) == Ok(s)
  {
    EscapeNoBraces(s);
    SubstEscapeRoundTrip(ctx, s);
  }

  /** A brace-free field is resolved before the text after it is formatted;
      a failing field fails the whole template. */
  lemma SubstField(ctx: Ctx, f: string, b: string)
    requires NoBraces(f)
    ensures Subst(ctx, "{" + f + "}" + b) ==
      (var v :- Resolve(ctx, f); Prepend(v, Subst(ctx, b)))
  {
    var s := "{" + f + "}" + b;
    var t := s[1..];
    assert t == f + "}" + b;
    assert t[|f|] == '}';
    var k := BraceIndex(t);
    assert forall i :: 0 <= i < |f| ==> t[i] == f[i];
    assert k == |f|;
    assert t[..k] == f;
    assert t[k + 1..] == b;
    if |s| > 1 {
      assert s[1] != '{' by {
        if f == [] { assert s[1] == '}'; } else { assert s[1] == f[0]; }
      }
    }
  }

  /** A template that starts with a simple field formats to the field's
      rendered value followed by the rest. */
  lemma SubstLeadingField(ctx: Ctx, name: string, b: string)
    requires SimpleName(name) && name in ctx && !ctx[name].VObj?
    ensures Render(name, ctx[name]).Ok?
    ensures Subst(ctx, "{" + name + "}" + Escape(b)) == Ok(Render(name, ctx[name]).value + b)
  {
    ResolveName(ctx, name);
    SubstEscapeRoundTrip(ctx, b);
    SubstField(ctx, name, Escape(b));
  }

  /** A template of literal text around one simple field formats to the
      text around the field's rendered value. */
  lemma SubstOneField(ctx: Ctx, a: string, name: string, b: string)
    requires SimpleName(name) && name in ctx && !ctx[name].VObj?
    ensures Subst(ctx, Escape(a) + "{" + name + "}" + Escape(b)) ==
      Ok(a + (if ctx[name].VStr? then ctx[name].s else IntToString(ctx[name].i)) + b)
  {
    var v := if ctx[name].VStr? then ctx[name].s else IntToString(ctx[name].i);
    var tail := "{" + name + "}" + Escape(b);
    FieldAfter(Escape(a), name, Escape(b));
    SubstLeadingField(ctx, name, b);
    assert Render(name, ctx[name]).value == v;
    SubstEscape(ctx, a, tail);
    assert a + (v + b) == a + v + b;
  }

  lemma FieldAfter(p: string, name: string, q: string)
    ensures p + "{" + name + "}" + q == p + ("{" + name + "}" + q)
  {
  }

  /** The same template with a field naming no context entry fails with
      KeyError for that name, whatever follows it. */
  lemma SubstMissingKey(ctx: Ctx, a: string, name: string, rest: string)
    requires SimpleName(name) && name !in ctx
    ensures Subst(ctx, Escape(a) + "{" + name + "}" + rest) == Err(MissingKey(name))
  {
    var tail := "{" + name + "}" + rest;
    FieldAfter(Escape(a), name, rest);
    SubstEscape(ctx, a, tail);
    SubstField(ctx, name, rest);
    ResolveName(ctx, name);
  }

  /** A simple field is looked up in the context and rendered. */
  lemma ResolveName(ctx: Ctx, name: string)
    requires SimpleName(name)
    ensures name !in ctx ==> Resolve(ctx, name) == Err(MissingKey(name))
    ensures name in ctx ==> Resolve(ctx, name) == Render(name, ctx[name])
  {
    SplitNoSep(name, '.');
  }

  /** A dotted field `obj.attr` reads the attribute of the named object. */
  lemma ResolveDotted(ctx: Ctx, obj: string, attr: string)
    requires SimpleName(obj) && SimpleName(attr)
    requires obj in ctx && ctx[obj].VObj?
    ensures attr !in ctx[obj].attrs ==> Resolve(ctx, obj + "." + attr) == Err(MissingAttribute(attr))
    ensures attr in ctx[obj].attrs ==>
      Resolve(ctx, obj + "." + attr) == Render(obj + "." + attr, ctx[obj].attrs[attr])
  {
    var f := obj + "." + attr;
    assert !HasSpecMark(f) by {
      assert f == obj + ['.'] + attr;
      forall c | c in [':', '!', '['] ensures c !in f {
        assert c !in obj && c !in attr;
      }
    }
    SplitIntercalate([obj, attr], '.');
    assert Intercalate([obj, attr], '.') == f;
    var parts := Split(f, '.');
    assert parts[0] == obj && parts[1..] == [attr];
    assert [attr][1..] == [];
    if attr in ctx[obj].attrs {
      assert Lookup(ctx[obj], [attr]) == Ok(ctx[obj].attrs[attr]);
    }
  }

  /** Formatting fails with a KeyError, AttributeError, ValueError or
      IndexError, never with an error the pack writers catch. */
  lemma {:induction false} SubstNotCaught(ctx: Ctx, s: string)
    ensures Subst(ctx, s).Err? ==> !Caught(Subst(ctx, s).error)
    decreases |s|
  {
    if s == [] {
    } else if s[0] == '{' {
      if |s| > 1 && s[1] == '{' {
        SubstNotCaught(ctx, s[2..]);
      } else {
        var f := OpenField(ctx, s[1..]);
        if f.Ok? {
          SubstNotCaught(ctx, s[1..][f.value.1..]);
        } else {
          var k := BraceIndex(s[1..]);
          if k < |s[1..]| && s[1..][k] != '{' {
            ResolveNotCaught(ctx, s[1..][..k]);
          }
        }
      }
    } else if s[0] == '}' {
      if |s| > 1 && s[1] == '}' {
        SubstNotCaught(ctx, s[2..]);
      }
    } else {
      SubstNotCaught(ctx, s[1..]);
    }
  }

  lemma ResolveNotCaught(ctx: Ctx, field: string)
    ensures Resolve(ctx, field).Err? ==> !Caught(Resolve(ctx, field).error)
  {
    if !HasSpecMark(field) {
      var parts := Split(field, '.');
      if parts[0] != [] && !AllDigits(parts[0]) && parts[0] in ctx {
        LookupNotCaught(ctx[parts[0]], parts[1..]);
      }
    }
  }

  lemma {:induction false} LookupNotCaught(v: Val, attrs: seq<string>)
    ensures Lookup(v, attrs).Err? ==> !Caught(Lookup(v, attrs).error)
    decreases |attrs|
  {
    if attrs != [] && attrs[0] != [] && v.VObj? && attrs[0] in v.attrs {
      LookupNotCaught(v.attrs[attrs[0]], attrs[1..]);
    }
  }

  /** Formatting every text of a list, in order, stopping at the first failure. */
  function SubstAll(ctx: Ctx, ss: seq<string>): (r: Result<seq<string>>)
    ensures r.Ok? ==> |r.value| == |ss|
    decreases |ss|
  {
    if ss == [] then Ok([])
    else
      var h :- Subst(ctx, ss[0]);
      var t :- SubstAll(ctx, ss[1..]);
      Ok([h] + t)
  }

  /** Formatting a list succeeds exactly when each text formats, and then
      holds the formatted texts position by position. */
  lemma {:induction false} SubstAllPointwise(ctx: Ctx, ss: seq<string>)
    ensures SubstAll(ctx, ss).Ok? <==> forall i :: 0 <= i < |ss| ==> Subst(ctx, ss[i]).Ok?
    ensures SubstAll(ctx, ss).Ok? ==>
      forall i :: 0 <= i < |ss| ==> SubstAll(ctx, ss).value[i] == Subst(ctx, ss[i]).value
    ensures SubstAll(ctx, ss).Err? ==>
      exists i :: (0 <= i < |ss| && (forall j :: 0 <= j < i ==> Subst(ctx, ss[j]).Ok?)
        && Subst(ctx, ss[i]) == Err(SubstAll(ctx, ss).error))
  {
    if ss != [] {
      SubstAllPointwise(ctx, ss[1..]);
      if Subst(ctx, ss[0]).Ok? && SubstAll(ctx, ss[1..]).Err? {
        var i :| 0 <= i < |ss[1..]| && (forall j :: 0 <= j < i ==> Subst(ctx, ss[1..][j]).Ok?)
          && Subst(ctx, ss[1..][i]) == Err(SubstAll(ctx, ss[1..]).error);
        assert forall j :: 0 <= j < i + 1 ==> Subst(ctx, ss[j]).Ok? by {
          forall j | 0 <= j < i + 1 ensures Subst(ctx, ss[j]).Ok? {
            if j > 0 { assert ss[j] == ss[1..][j - 1]; }
          }
        }
        assert Subst(ctx, ss[i + 1]) == Err(SubstAll(ctx, ss).error);
      }
      if SubstAll(ctx, ss[1..]).Ok? && Subst(ctx, ss[0]).Ok? {
        forall i | 0 <= i < |ss| ensures SubstAll(ctx, ss).value[i] == Subst(ctx, ss[i]).value {
          if i > 0 { assert ss[i] == ss[1..][i - 1]; }
        }
      }
      if !SubstAll(ctx, ss[1..]).Ok? {
        var i :| 0 <= i < |ss[1..]| && Subst(ctx, ss[1..][i]) == Err(SubstAll(ctx, ss[1..]).error);
        assert !Subst(ctx, ss[i + 1]).Ok?;
      }
    }
  }

  /** Formatting a concatenated list is formatting each half, the first
      half's failure taking precedence. */
  lemma {:induction false} SubstAllAppend(ctx: Ctx, a: seq<string>, b: seq<string>)
    ensures SubstAll(ctx, a + b) ==
      (var x :- SubstAll(ctx, a); var y :- SubstAll(ctx, b); Ok(x + y))
  {
    if a == [] {
      assert a + b == b;
      if SubstAll(ctx, b).Ok? {
        assert [] + SubstAll(ctx, b).value == SubstAll(ctx, b).value;
      }
    } else {
      assert (a + b)[0] == a[0];
      assert (a + b)[1..] == a[1..] + b;
      SubstAllAppend(ctx, a[1..], b);
      if Subst(ctx, a[0]).Ok? && SubstAll(ctx, a[1..]).Ok? && SubstAll(ctx, b).Ok? {
        assert [Subst(ctx, a[0]).value] + (SubstAll(ctx, a[1..]).value + SubstAll(ctx, b).value)
          == ([Subst(ctx, a[0]).value] + SubstAll(ctx, a[1..]).value) + SubstAll(ctx, b).value;
      }
    }
  }

  lemma {:induction false} SubstAllNotCaught(ctx: Ctx, ss: seq<string>)
    ensures SubstAll(ctx, ss).Err? ==> !Caught(SubstAll(ctx, ss).error)
    decreases |ss|
  {
    if ss != [] {
      SubstNotCaught(ctx, ss[0]);
      SubstAllNotCaught(ctx, ss[1..]);
    }
  }

  /** Adding entries to the context never changes a formatting that already
      succeeded: the entries a template does not name do not matter. */
  lemma {:induction false} SubstExtend(ctx: Ctx, ctx': Ctx, s: string)
    requires forall k :: k in ctx ==> k in ctx' && ctx'[k] == ctx[k]
    requires Subst(ctx, s).Ok?
    ensures Subst(ctx', s) == Subst(ctx, s)
    decreases |s|
  {
    if s == [] {
    } else if |s| > 1 && s[0] == '{' && s[1] == '{' {
      SubstExtend(ctx, ctx', s[2..]);
    } else if |s| > 1 && s[0] == '}' && s[1] == '}' {
      SubstExtend(ctx, ctx', s[2..]);
    } else if s[0] == '}' {
    } else if s[0] == '{' {
      var t := s[1..];
      var k := BraceIndex(t);
      SubstExtend(ctx, ctx', t[k + 1..]);
    } else {
      SubstExtend(ctx, ctx', s[1..]);
    }
  }
}
