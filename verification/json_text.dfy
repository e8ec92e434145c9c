/** `json.dump(value, f, indent=4)` with Python's defaults: members one per
    line under four spaces of indent per level, `", "` never used between
    items (`","` ends the line), `": "` after keys, insertion order kept, and
    `ensure_ascii` escaping every character outside printable ASCII. */
module JsonText {
  import opened Errors
  import opened Strings
  import opened JsonValue

  /** Printable ASCII or a newline: everything json.dumps emits here. */
  predicate AsciiText(s: string) {
    forall i :: 0 <= i < |s| ==> (0x20 <= s[i] as int <= 0x7E) || s[i] == '\n'
  }

  lemma AsciiConcat(a: string, b: string)
    requires AsciiText(a) && AsciiText(b)
    ensures AsciiText(a + b)
  {
    assert forall i :: |a| <= i < |a + b| ==> (a + b)[i] == b[i - |a|];
  }

  function Indent(level: nat): (r: string)
    ensures |r| == 4 * level && AsciiText(r)
  {
    seq(4 * level, _ => ' ')
  }

  function HexDigit(d: nat): (r: char)
    requires d < 16
    ensures '0' <= r <= '9' || 'a' <= r <= 'f'
  {
    "0123456789abcdef"[d]
  }

  /** Four lower-case hex digits, as `'\\u{0:04x}'` writes them. */
  function Hex4(n: nat): (r: string)
    requires n < 0x10000
    ensures |r| == 4 && AsciiText(r)
  {
    [HexDigit(n / 0x1000), HexDigit(n / 0x100 % 16), HexDigit(n / 0x10 % 16), HexDigit(n % 16)]
  }

  /** `\\uXXXX` for a code point below U+10000. */
  function UnicodeEscape(n: nat): (r: string)
    requires n < 0x10000
    ensures AsciiText(r)
  {
    AsciiConcat("\\u", Hex4(n));
    "\\u" + Hex4(n)
  }

  /** The UTF-16 surrogate pair of a code point above U+FFFF, each half
      escaped. */
  function SurrogatePair(n: int): (r: string)
    requires 0x10000 <= n <= 0x10FFFF
    ensures AsciiText(r)
  {
    var m := n - 0x10000;
    var hi := UnicodeEscape(0xD800 + m / 0x400);
    var lo := UnicodeEscape(0xDC00 + m % 0x400);
    AsciiConcat(hi, lo);
    hi + lo
  }

  /** One character of a JSON string literal, as `ensure_ascii` writes it. */
  function EscapeChar(c: char): (r: string)
    ensures AsciiText(r)
  {
    var n := c as int;
    if c == '"' then "\\\""
    else if c == '\\' then "\\\\"
    else if c == '\n' then "\\n"
    else if c == '\r' then "\\r"
    else if c == '\t' then "\\t"
    else if n == 0x08 then "\\b"
    else if n == 0x0C then "\\f"
    else if 0x20 <= n <= 0x7E then [c]
    else if n < 0x10000 then UnicodeEscape(n)
    else SurrogatePair(n)
  }

  function EscapeString(s: string): (r: string)
    ensures AsciiText(r)
    decreases |s|
  {
    if s == [] then []
    else
      AsciiConcat(EscapeChar(s[0]), EscapeString(s[1..]));
      EscapeChar(s[0]) + EscapeString(s[1..])
  }

  function Quote(s: string): (r: string)
    ensures AsciiText(r)
  {
    AsciiConcat("\"", EscapeString(s));
    AsciiConcat("\"" + EscapeString(s), "\"");
    "\"" + EscapeString(s) + "\""
  }

  lemma IntToStringAscii(n: int)
    ensures AsciiText(IntToString(n))
  {
    var s := IntToString(n);
    if n < 0 {
      assert s[1..] == NatToString(-n);
      assert forall i :: 1 <= i < |s| ==> s[i] == s[1..][i - 1];
    }
  }

  /** The text of `j` at nesting depth `level`. Only printable ASCII and
      newlines are produced, so writing it can never fail to encode. */
  function Encode(j: Json, level: nat): (r: string)
    ensures AsciiText(r)
    decreases j, 1
  {
    match j
    case JNull => "null"
    case JBool(b) => if b then "true" else "false"
    case JNum(n) => IntToStringAscii(n); IntToString(n)
    case JStr(s) => Quote(s)
    case JArr(xs) =>
      if xs == [] then "[]"
      else
        var body := EncodeItems(xs, level + 1);
        Wrap("[", body, level, "]")
    case JObj(ms) =>
      if ms == [] then "{}"
      else
        var body := EncodeMembers(ms, level + 1);
        Wrap("{", body, level, "}")
  }

  /** An opening bracket, a newline and the indented body, then the closing
      bracket on its own line at the outer indent. */
  function Wrap(open: string, body: string, level: nat, close: string): (r: string)
    requires AsciiText(open) && AsciiText(body) && AsciiText(close)
    ensures AsciiText(r)
  {
    AsciiConcat(open, "\n");
    AsciiConcat(open + "\n", Indent(level + 1));
    AsciiConcat(open + "\n" + Indent(level + 1), body);
    AsciiConcat(open + "\n" + Indent(level + 1) + body, "\n");
    AsciiConcat(open + "\n" + Indent(level + 1) + body + "\n", Indent(level));
    AsciiConcat(open + "\n" + Indent(level + 1) + body + "\n" + Indent(level), close);
    open + "\n" + Indent(level + 1) + body + "\n" + Indent(level) + close
  }

  /** Items separated by `","`, a newline and the indent. */
  function Separate(first: string, level: nat, rest: string): (r: string)
    requires AsciiText(first) && AsciiText(rest)
    ensures AsciiText(r)
  {
    AsciiConcat(first, ",\n");
    AsciiConcat(first + ",\n", Indent(level));
    AsciiConcat(first + ",\n" + Indent(level), rest);
    first + ",\n" + Indent(level) + rest
  }

  function EncodeItems(xs: seq<Json>, level: nat): (r: string)
    requires xs != []
    ensures AsciiText(r)
    decreases xs, 0
  {
    var first := Encode(xs[0], level);
    if |xs| == 1 then first else Separate(first, level, EncodeItems(xs[1..], level))
  }

  function EncodeMember(key: string, value: Json, level: nat): (r: string)
    ensures AsciiText(r)
    decreases value, 2
  {
    AsciiConcat(Quote(key), ": ");
    AsciiConcat(Quote(key) + ": ", Encode(value, level));
    Quote(key) + ": " + Encode(value, level)
  }

  function EncodeMembers(ms: seq<(string, Json)>, level: nat): (r: string)
    requires ms != []
    ensures AsciiText(r)
    decreases ms, 0
  {
    assert ms[0].1 < ms[0];
    var first := EncodeMember(ms[0].0, ms[0].1, level);
    if |ms| == 1 then first else Separate(first, level, EncodeMembers(ms[1..], level))
  }

  // Reading a string literal back ------------------------------------------

  /** The value of one lower-case hex digit, or -1 for any other character. */
  function HexValue(ch: char): (r: int)
    ensures -1 <= r < 16
  {
    if '0' <= ch <= '9' then ch as int - '0' as int
    else if 'a' <= ch <= 'f' then ch as int - 'a' as int + 10
    else if 'A' <= ch <= 'F' then ch as int - 'A' as int + 10
    else -1
  }

  /** The number four hex digits spell, or -1 when one is not a digit. */
  function ReadHex4(t: string): (r: int)
    requires |t| == 4
    ensures -1 <= r < 0x10000
  {
    var a, b, c, d := HexValue(t[0]), HexValue(t[1]), HexValue(t[2]), HexValue(t[3]);
    if a < 0 || b < 0 || c < 0 || d < 0 then -1
    else a * 0x1000 + b * 0x100 + c * 0x10 + d
  }

  lemma HexDigitValue(d: nat)
    requires d < 16
    ensures HexValue(HexDigit(d)) == d
  {
    var digits := "0123456789abcdef";
    assert forall i :: 0 <= i < 10 ==> digits[i] as int == '0' as int + i;
    assert forall i :: 10 <= i < 16 ==> digits[i] as int == 'a' as int + i - 10;
  }

  /** The four digits of a number below 0x10000 add back up to it. */
  lemma Hex4Digits(n: nat)
    requires n < 0x10000
    ensures n / 0x1000 * 0x1000 + n / 0x100 % 16 * 0x100 + n / 0x10 % 16 * 0x10 + n % 16 == n
  {
    var q1 := n / 0x10;
    var q2 := n / 0x100;
    assert n == q1 * 0x10 + n % 16;
    assert q2 == q1 / 0x10;
    assert q1 == q2 * 0x10 + q1 % 16;
    assert n / 0x1000 == q2 / 0x10;
    assert q2 == n / 0x1000 * 0x10 + q2 % 16;
  }

  /** Four hex digits read back as the number they were written from. */
  lemma Hex4Read(n: nat)
    requires n < 0x10000
    ensures ReadHex4(Hex4(n)) == n
  {
    var h := Hex4(n);
    HexDigitValue(n / 0x1000);
    HexDigitValue(n / 0x100 % 16);
    HexDigitValue(n / 0x10 % 16);
    HexDigitValue(n % 16);
    assert HexValue(h[0]) == n / 0x1000;
    assert HexValue(h[1]) == n / 0x100 % 16;
    assert HexValue(h[2]) == n / 0x10 % 16;
    assert HexValue(h[3]) == n % 16;
    Hex4Digits(n);
  }

  function Prepend(c: char, rest: Option<string>): Option<string> {
    if rest.Some? then Some([c] + rest.value) else None
  }

  /** The character a two-character escape `\\e` stands for. */
  function SimpleEscape(e: char): Option<char> {
    if e == '"' then Some('"')
    else if e == '\\' then Some('\\')
    else if e == '/' then Some('/')
    else if e == 'n' then Some('\n')
    else if e == 'r' then Some('\r')
    else if e == 't' then Some('\t')
    else if e == 'b' then Some(0x08 as char)
    else if e == 'f' then Some(0x0C as char)
    else None
  }

  /** The character a high surrogate `h` and a following `l` stand for, when
      `l` is a low surrogate. */
  function Combine(h: int, l: int): (r: Option<char>)
    requires 0xD800 <= h < 0xDC00
    ensures r.Some? <==> 0xDC00 <= l < 0xE000
    ensures r.Some? ==> 0x10000 <= r.value as int
  {
    if 0xDC00 <= l < 0xE000 then Some((0x10000 + (h - 0xD800) * 0x400 + (l - 0xDC00)) as char)
    else None
  }

  /** The first character of the inside of a string literal as a JSON
      reader sees it, with the length of text it takes: a character other
      than a quote, a backslash or a control character (below U+0020), one
      of the eight two-character escapes, `\\uXXXX` (hex digits in either
      case) outside the surrogate range, or a high surrogate escape followed
      by a low one. None for a raw quote or control character, an unknown
      escape, or a surrogate escape that is not part of a pair. The grammar
      of section 7 of RFC 8259 admits that last form, and section 8.2 leaves
      its meaning open; a Dafny string cannot hold the lone surrogate it
      would give, so this reader is stricter than the grammar there and
      only there. */
  function ReadChar(t: string): (r: Option<(char, nat)>)
    requires t != []
    ensures r.Some? ==> 1 <= r.value.1 <= |t|
  {
    if t[0] == '"' || t[0] as int < 0x20 then None
    else if t[0] != '\\' then Some((t[0], 1))
    else if |t| < 2 then None
    else if t[1] != 'u' then
      var c := SimpleEscape(t[1]);
      if c.Some? then Some((c.value, 2)) else None
    else if |t| < 6 then None
    else
      var h := ReadHex4(t[2..6]);
      if 0 <= h < 0xD800 || 0xE000 <= h then Some((h as char, 6))
      else if 0xD800 <= h < 0xDC00 && |t| >= 12 && t[6] == '\\' && t[7] == 'u' then
        var c := Combine(h, ReadHex4(t[8..12]));
        if c.Some? then Some((c.value, 12)) else None
      else None
  }

  /** The string the inside of a string literal holds, read character by
      character; None where `ReadChar` refuses a character. */
  function Unescape(t: string): (r: Option<string>)
    decreases |t|
  {
    if t == [] then Some([])
    else
      var c := ReadChar(t);
      if c.None? then None else Prepend(c.value.0, Unescape(t[c.value.1..]))
  }

  /** Reading `c` from the whole of `x` leaves `rest` to be read next. */
  lemma UnescapeFront(x: string, rest: string, c: char)
    requires x != [] && ReadChar(x + rest) == Some((c, |x|))
    ensures Unescape(x + rest) == Prepend(c, Unescape(rest))
  {
    assert (x + rest)[|x|..] == rest;
  }

  /** Where `\\uXXXX` of `n` sits in a text, a reader finds a backslash, a
      `u` and four digits spelling `n`. */
  lemma UnicodeEscapeAt(t: string, k: nat, n: nat)
    requires n < 0x10000 && k + 6 <= |t| && t[k..k + 6] == UnicodeEscape(n)
    ensures t[k] == '\\' && t[k + 1] == 'u' && ReadHex4(t[k + 2..k + 6]) == n
  {
    var u := UnicodeEscape(n);
    assert u[0] == '\\' && u[1] == 'u' && u[2..] == Hex4(n);
    assert t[k + 2..k + 6] == u[2..];
    Hex4Read(n);
  }

  lemma ReadSimple(e: char, rest: string)
    requires SimpleEscape(e).Some?
    ensures ReadChar(['\\', e] + rest) == Some((SimpleEscape(e).value, 2))
  {
    var t := ['\\', e] + rest;
    assert t[0] == '\\' && t[1] == e;
  }

  lemma ReadBmp(c: char, rest: string)
    requires c as int < 0x10000
    ensures ReadChar(UnicodeEscape(c as int) + rest) == Some((c, 6))
  {
    var t := UnicodeEscape(c as int) + rest;
    assert t[0..6] == UnicodeEscape(c as int);
    UnicodeEscapeAt(t, 0, c as int);
    assert t[2..6] == t[0 + 2..0 + 6];
  }

  lemma ReadSurrogates(hi: nat, lo: nat, rest: string)
    requires 0xD800 <= hi < 0xDC00 && 0xDC00 <= lo < 0xE000
    ensures ReadChar(UnicodeEscape(hi) + UnicodeEscape(lo) + rest) == Some((Combine(hi, lo).value, 12))
  {
    var t := UnicodeEscape(hi) + UnicodeEscape(lo) + rest;
    assert t[0..6] == UnicodeEscape(hi);
    assert t[6..12] == UnicodeEscape(lo);
    UnicodeEscapeAt(t, 0, hi);
    UnicodeEscapeAt(t, 6, lo);
    assert t[2..6] == t[0 + 2..0 + 6];
    assert t[8..12] == t[6 + 2..6 + 6];
  }

  /** The two halves `SurrogatePair` writes combine back into the code
      point. */
  lemma CombineHalves(n: int)
    requires 0x10000 <= n <= 0x10FFFF
    ensures var m := n - 0x10000;
      Combine(0xD800 + m / 0x400, 0xDC00 + m % 0x400) == Some(n as char)
  {
    var m := n - 0x10000;
    assert m / 0x400 * 0x400 + m % 0x400 == m;
  }

  lemma SurrogatePairHalves(n: int)
    requires 0x10000 <= n <= 0x10FFFF
    ensures var m := n - 0x10000;
      SurrogatePair(n) == UnicodeEscape(0xD800 + m / 0x400) + UnicodeEscape(0xDC00 + m % 0x400)
  {
  }

  lemma ReadPair(c: char, rest: string)
    requires 0x10000 <= c as int
    ensures ReadChar(SurrogatePair(c as int) + rest) == Some((c, 12))
  {
    var n := c as int;
    var m := n - 0x10000;
    var hi, lo := 0xD800 + m / 0x400, 0xDC00 + m % 0x400;
    SurrogatePairHalves(n);
    assert SurrogatePair(n) + rest == UnicodeEscape(hi) + UnicodeEscape(lo) + rest;
    ReadSurrogates(hi, lo, rest);
    CombineHalves(n);
  }

  /** What `EscapeChar` writes for `c` is read as `c`, taking all of it. */
  lemma ReadEscapedChar(c: char, rest: string)
    ensures ReadChar(EscapeChar(c) + rest) == Some((c, |EscapeChar(c)|))
  {
    var n := c as int;
    if c == '"' {
      ReadSimple('"', rest);
    } else if c == '\\' {
      ReadSimple('\\', rest);
    } else if c == '\n' {
      ReadSimple('n', rest);
    } else if c == '\r' {
      ReadSimple('r', rest);
    } else if c == '\t' {
      ReadSimple('t', rest);
    } else if n == 0x08 {
      ReadSimple('b', rest);
    } else if n == 0x0C {
      ReadSimple('f', rest);
    } else if 0x20 <= n <= 0x7E {
      assert ([c] + rest)[0] == c;
    } else if n < 0x10000 {
      ReadBmp(c, rest);
    } else {
      ReadPair(c, rest);
    }
  }

  /** One escaped character is read back, whatever follows it. */
  lemma UnescapeChar(c: char, rest: string)
    ensures Unescape(EscapeChar(c) + rest) == Prepend(c, Unescape(rest))
  {
    ReadEscapedChar(c, rest);
    UnescapeFront(EscapeChar(c), rest, c);
  }

  /** Reading an escaped string gives back the string. */
  lemma {:induction false} EscapeStringRoundTrip(s: string)
    ensures Unescape(EscapeString(s)) == Some(s)
    decreases |s|
  {
    if s != [] {
      EscapeStringRoundTrip(s[1..]);
      UnescapeChar(s[0], EscapeString(s[1..]));
      assert [s[0]] + s[1..] == s;
    }
  }

  /** The string a JSON string literal holds, or None for text that is not
      one or that holds a lone surrogate escape. */
  function ReadString(t: string): Option<string> {
    if |t| >= 2 && t[0] == '"' && t[|t| - 1] == '"' then Unescape(t[1..|t| - 1])
    else None
  }

  /** The reader refuses an unescaped quote inside a literal and a raw
      control character, so the round trip below holds only of an escaper
      that escapes both. */
  lemma ReaderRejectsRaw()
    ensures ReadString("\"a\"b\"") == None
    ensures Unescape("\n") == None
    ensures Unescape([0 as char]) == None
  {
    var t := "\"a\"b\"";
    assert t[1..|t| - 1] == "a\"b";
    assert ReadChar("\"b") == None;
    assert "a\"b"[1..] == "\"b";
    assert ReadChar("a\"b") == Some(('a', 1));
  }

  /** The reader takes the escapes section 7 of RFC 8259 allows that the
      escaper never writes: `\\/` and upper-case hex digits. */
  lemma ReaderAcceptsOptional()
    ensures ReadString("\"\\/\"") == Some("/")
    ensures Unescape("\\u00E9") == Some([0xE9 as char])
  {
    var t := "\"\\/\"";
    assert t[1..|t| - 1] == "\\/";
    assert ReadChar("\\/") == Some(('/', 2));
    assert "\\/"[2..] == [];
    assert Unescape("\\/") == Prepend('/', Unescape([]));
    assert ['/'] + [] == "/";
    assert ReadString(t) == Unescape("\\/");
    var u := "\\u00E9";
    assert u[2..6] == "00E9";
    assert ReadHex4("00E9") == 0xE9;
    assert ReadChar(u) == Some((0xE9 as char, 6));
    assert u[6..] == [];
    assert Unescape(u) == Prepend(0xE9 as char, Unescape([]));
    assert [0xE9 as char] + [] == [0xE9 as char];
  }

  /** A string value dumped as JSON reads back as itself. */
  lemma DumpsStringRoundTrip(s: string)
    ensures ReadString(Dumps(JStr(s))) == Some(s)
  {
    var t := Dumps(JStr(s));
    assert t[1..|t| - 1] == EscapeString(s);
    EscapeStringRoundTrip(s);
  }

  /** The text `json.dump(j, f, indent=4)` writes. */
  function Dumps(j: Json): (r: string)
    ensures AsciiText(r)
  {
    Encode(j, 0)
  }
}
