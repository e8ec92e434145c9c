/** Text helpers shared by the formatter, the JSON writer and the path code:
    Python's whitespace stripping, splitting and joining on one separator,
    decimal rendering of integers, and concatenation. */
module Strings {

  /** Python's `str.isspace` for one character: the set `str.lstrip()`
      removes when called without arguments. */
  predicate IsSpace(c: char) {
    var n := c as int;
    || 0x09 <= n <= 0x0D
    || 0x1C <= n <= 0x20
    || n == 0x85 || n == 0xA0 || n == 0x1680
    || 0x2000 <= n <= 0x200A
    || n == 0x2028 || n == 0x2029 || n == 0x202F || n == 0x205F || n == 0x3000
  }

  /** `s.lstrip()`: the longest suffix of `s` that does not start with
      whitespace; everything cut off is whitespace. */
  function LStrip(s: string): (r: string)
    ensures |r| <= |s| && r == s[|s| - |r|..]
    ensures forall i :: 0 <= i < |s| - |r| ==> IsSpace(s[i])
    ensures r == [] || !IsSpace(r[0])
  {
    if s != [] && IsSpace(s[0]) then LStrip(s[1..]) else s
  }

  predicate NoBraces(s: string) {
    forall i :: 0 <= i < |s| ==> s[i] != '{' && s[i] != '}'
  }

  /** `s.split(sep)` for a one-character separator. */
  function Split(s: string, sep: char): (parts: seq<string>)
    ensures |parts| >= 1
    ensures forall i :: 0 <= i < |parts| ==> sep !in parts[i]
  {
    if s == [] then [[]]
    else
      var rest := Split(s[1..], sep);
      if s[0] == sep then [[]] + rest else [[s[0]] + rest[0]] + rest[1..]
  }

  /** `sep.join(parts)` for a non-empty list. */
  function Intercalate(parts: seq<string>, sep: char): string
    requires |parts| >= 1
  {
    if |parts| == 1 then parts[0] else parts[0] + [sep] + Intercalate(parts[1..], sep)
  }

  /** Joining one more part appends the separator and the part. */
  lemma {:induction false} IntercalateSnoc(parts: seq<string>, x: string, sep: char)
    requires |parts| >= 1
    ensures Intercalate(parts + [x], sep) == Intercalate(parts, sep) + [sep] + x
    decreases |parts|
  {
    if |parts| == 1 {
      assert parts + [x] == [parts[0], x];
      assert [parts[0], x][1..] == [x];
    } else {
      IntercalateSnoc(parts[1..], x, sep);
      assert (parts + [x])[1..] == parts[1..] + [x];
      assert (parts + [x])[0] == parts[0];
    }
  }

  /** Splitting text with no separator in it leaves it whole. */
  lemma {:induction false} SplitNoSep(a: string, sep: char)
    requires sep !in a
    ensures Split(a, sep) == [a]
  {
    if a != [] {
      assert a[0] != sep by { assert a[0] in a; }
      SplitNoSep(a[1..], sep);
      assert [a[0]] + a[1..] == a;
    }
  }

  /** A separator-free prefix followed by a separator becomes the first part. */
  lemma {:induction false} SplitAtSep(a: string, sep: char, rest: string)
    requires sep !in a
    ensures Split(a + [sep] + rest, sep) == [a] + Split(rest, sep)
  {
    if a == [] {
      assert a + [sep] + rest == [sep] + rest;
      assert ([sep] + rest)[1..] == rest;
    } else {
      SplitAtSep(a[1..], sep, rest);
      assert (a + [sep] + rest)[1..] == a[1..] + [sep] + rest;
      assert [a[0]] + a[1..] == a;
    }
  }

  /** Splitting undoes joining when no part holds the separator. */
  lemma {:induction false} SplitIntercalate(parts: seq<string>, sep: char)
    requires |parts| >= 1
    requires forall i :: 0 <= i < |parts| ==> sep !in parts[i]
    ensures Split(Intercalate(parts, sep), sep) == parts
  {
    if |parts| == 1 {
      SplitNoSep(parts[0], sep);
    } else {
      SplitIntercalate(parts[1..], sep);
      SplitAtSep(parts[0], sep, Intercalate(parts[1..], sep));
      assert [parts[0]] + parts[1..] == parts;
    }
  }

  /** Joining undoes splitting, for every text. */
  lemma {:induction false} IntercalateSplit(s: string, sep: char)
    ensures Intercalate(Split(s, sep), sep) == s
  {
    if s != [] {
      IntercalateSplit(s[1..], sep);
      var rest := Split(s[1..], sep);
      if s[0] != sep {
        var parts := [[s[0]] + rest[0]] + rest[1..];
        assert parts[1..] == rest[1..];
        if |rest| > 1 {
          assert rest == [rest[0]] + rest[1..];
        }
      } else {
        assert ([[]] + rest)[1..] == rest;
      }
    }
  }

  predicate IsDigit(c: char) {
    '0' <= c <= '9'
  }

  predicate AllDigits(s: string) {
    forall i :: 0 <= i < |s| ==> IsDigit(s[i])
  }

  function DigitChar(d: nat): (c: char)
    requires d < 10
  {
    "0123456789"[d]
  }

  /** Decimal digits of a natural number, most significant first. */
  function NatToString(n: nat): (r: string)
    ensures |r| >= 1 && AllDigits(r)
    decreases n
  {
    if n < 10 then [DigitChar(n)] else NatToString(n / 10) + [DigitChar(n % 10)]
  }

  /** Python's `str(i)` for an int: an optional minus sign, then the digits. */
  function IntToString(i: int): string {
    if i < 0 then "-" + NatToString(-i) else NatToString(i)
  }

  /** The value of a string of decimal digits. */
  function ParseNat(s: string): nat
    requires AllDigits(s)
    decreases |s|
  {
    if s == [] then 0 else ParseNat(s[..|s| - 1]) * 10 + (s[|s| - 1] as int - '0' as int)
  }

  /** The value of an optionally signed decimal literal; the reading a
      consumer of the generated text gives to `IntToString`'s output. */
  function ParseInt(s: string): int
    requires |s| >= 1
    requires AllDigits(s) || (s[0] == '-' && AllDigits(s[1..]))
  {
    if AllDigits(s) then ParseNat(s) else -(ParseNat(s[1..]) as int)
  }

  lemma {:induction false} ParseNatToString(n: nat)
    ensures ParseNat(NatToString(n)) == n
  {
    if n >= 10 {
      ParseNatToString(n / 10);
      var s := NatToString(n / 10) + [DigitChar(n % 10)];
      assert s[..|s| - 1] == NatToString(n / 10);
    }
  }

  /** Rendering an integer in decimal loses nothing. */
  lemma IntToStringRoundTrip(i: int)
    ensures |IntToString(i)| >= 1
    ensures AllDigits(IntToString(i)) || (IntToString(i)[0] == '-' && AllDigits(IntToString(i)[1..]))
    ensures ParseInt(IntToString(i)) == i
  {
    if i < 0 {
      NegativeRoundTrip(-i, IntToString(i));
    } else {
      ParseNatToString(i);
    }
  }

  lemma NegativeRoundTrip(n: nat, s: string)
    requires n > 0 && s == "-" + NatToString(n)
    ensures !AllDigits(s) && s[0] == '-' && AllDigits(s[1..])
    ensures ParseInt(s) == -(n as int)
  {
    assert s[1..] == NatToString(n);
    assert !IsDigit(s[0]);
    ParseNatToString(n);
  }

  /** The concatenation of a list of texts, in order. */
  function Concat(ss: seq<string>): string
    decreases |ss|
  {
    if ss == [] then [] else Concat(ss[..|ss| - 1]) + ss[|ss| - 1]
  }
}
