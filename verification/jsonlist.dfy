/** `json.dumps` and `json.loads` on a list of strings, as the settings table
    stores `banned_words` and `log_types` (main.py). The encoder is Python's
    default: `ensure_ascii=True` and the separator `", "`. Outside printable
    ASCII every character is escaped, control characters with their short
    form where one exists, others as `\uXXXX` in lower-case hex, and
    characters beyond the Basic Multilingual Plane as a surrogate pair. The
    decoder reads that canonical layout (without optional whitespace) and
    accepts any escape JSON allows except a lone surrogate, which has no
    character of its own. */
module JsonList {

  import opened Common

  // ---------------------------------------------------------------------------
  // Four-digit hexadecimal.
  // ---------------------------------------------------------------------------

  function HexDigit(d: nat): (c: char)
    requires d < 16
  {
    if d < 10 then ('0' as int + d) as char else ('a' as int + d - 10) as char
  }

  function HexValue(c: char): (r: Option<nat>)
    ensures r.Some? ==> r.value < 16
  {
    if '0' <= c <= '9' then Some(c as int - '0' as int)
    else if 'a' <= c <= 'f' then Some(c as int - 'a' as int + 10)
    else if 'A' <= c <= 'F' then Some(c as int - 'A' as int + 10)
    else None
  }

  lemma HexDigitValue(d: nat)
    requires d < 16
    ensures HexValue(HexDigit(d)) == Some(d)
  {
  }

  function Hex4(n: nat): (s: string)
    requires n < 0x10000
    ensures |s| == 4
  {
    [HexDigit(n / 0x1000), HexDigit(n / 0x100 % 16), HexDigit(n / 16 % 16), HexDigit(n % 16)]
  }

  function ParseHex4(s: string): (r: Option<nat>)
    requires |s| == 4
    ensures r.Some? ==> r.value < 0x10000
  {
    match (HexValue(s[0]), HexValue(s[1]), HexValue(s[2]), HexValue(s[3]))
    case (Some(a), Some(b), Some(c), Some(d)) => Some(((a * 16 + b) * 16 + c) * 16 + d)
    case _ => None
  }

  lemma Hex4RoundTrip(n: nat)
    requires n < 0x10000
    ensures ParseHex4(Hex4(n)) == Some(n)
  {
    var s := Hex4(n);
    HexDigitValue(n / 0x1000);
    HexDigitValue(n / 0x100 % 16);
    HexDigitValue(n / 16 % 16);
    HexDigitValue(n % 16);
    assert n / 0x100 == n / 0x1000 * 16 + n / 0x100 % 16;
    assert n / 16 == n / 0x100 * 16 + n / 16 % 16;
    assert n == n / 16 * 16 + n % 16;
  }

  // ---------------------------------------------------------------------------
  // Encoding.
  // ---------------------------------------------------------------------------

  /** Printable ASCII other than the quote and the backslash: written as is. */
  predicate IsPlain(c: char) {
    ' ' <= c <= '~' && c != '"' && c != '\\'
  }

  function EscapeChar(c: char): (e: string)
    ensures |e| >= 1
    ensures |e| == 1 <==> IsPlain(c)
    ensures |e| == 1 ==> e == [c]
    ensures |e| > 1 ==> e[0] == '\\'
  {
    if c == '"' then "\\\""
    else if c == '\\' then "\\\\"
    else if c == '\n' then "\\n"
    else if c == '\r' then "\\r"
    else if c == '\t' then "\\t"
    else if c == '\U{8}' then "\\b"
    else if c == '\U{C}' then "\\f"
    else if IsPlain(c) then [c]
    else if (c as int) < 0x10000 then "\\u" + Hex4(c as int)
    else
      var v := c as int - 0x10000;
      "\\u" + Hex4(0xD800 + v / 0x400) + "\\u" + Hex4(0xDC00 + v % 0x400)
  }

  function EscapeString(s: string): string
    decreases |s|
  {
    if |s| == 0 then "" else EscapeChar(s[0]) + EscapeString(s[1..])
  }

  /** `json.dumps(s)` for one string. */
  function EncodeString(s: string): string {
    "\"" + EscapeString(s) + "\""
  }

  function EncodeElements(xs: seq<string>): (e: string)
    requires |xs| >= 1
    ensures |e| >= 2 && e[0] == '"'
    decreases |xs|
  {
    if |xs| == 1 then EncodeString(xs[0]) else EncodeString(xs[0]) + ", " + EncodeElements(xs[1..])
  }

  /** `json.dumps(xs)` for a list of strings. */
  function Encode(xs: seq<string>): (t: string)
    ensures |t| >= 2 && t[0] == '[' && t[|t| - 1] == ']'
    ensures t == "[]" <==> xs == []
  {
    if |xs| == 0 then "[]" else "[" + EncodeElements(xs) + "]"
  }

  // ---------------------------------------------------------------------------
  // Decoding.
  // ---------------------------------------------------------------------------

  function CombineSurrogates(hi: nat, lo: nat): (n: nat)
    requires 0xD800 <= hi < 0xDC00 && 0xDC00 <= lo < 0xE000
    ensures 0x10000 <= n <= 0x10FFFF
  {
    0x10000 + (hi - 0xD800) * 0x400 + (lo - 0xDC00)
  }

  /** Reads one escape sequence, the backslash already consumed; returns the
      character and what follows it. */
  function ParseEscape(t: string): (r: Option<(char, string)>)
    ensures r.Some? ==> |r.value.1| < |t|
  {
    if |t| == 0 then None
    else if t[0] == '"' then Some(('"', t[1..]))
    else if t[0] == '\\' then Some(('\\', t[1..]))
    else if t[0] == '/' then Some(('/', t[1..]))
    else if t[0] == 'b' then Some(('\U{8}', t[1..]))
    else if t[0] == 'f' then Some(('\U{C}', t[1..]))
    else if t[0] == 'n' then Some(('\n', t[1..]))
    else if t[0] == 'r' then Some(('\r', t[1..]))
    else if t[0] == 't' then Some(('\t', t[1..]))
    else if t[0] == 'u' && |t| >= 5 then
      match ParseHex4(t[1..5])
      case None => None
      case Some(n) =>
        if n < 0xD800 || 0xE000 <= n then Some((n as char, t[5..]))
        else if n < 0xDC00 && |t| >= 11 && t[5] == '\\' && t[6] == 'u' then
          match ParseHex4(t[7..11])
          case Some(m) =>
            if 0xDC00 <= m < 0xE000 then Some((CombineSurrogates(n, m) as char, t[11..])) else None
          case None => None
        else None   // a lone surrogate has no character of its own
    else None
  }

  /** Reads the body of a string literal, the opening quote already consumed;
      returns the string and what follows the closing quote. Raw control
      characters are refused, as `json.loads` does by default. */
  function ParseString(t: string): (r: Option<(string, string)>)
    ensures r.Some? ==> |r.value.1| < |t|
    decreases |t|
  {
    if |t| == 0 then None
    else if t[0] == '"' then Some(("", t[1..]))
    else if t[0] == '\\' then
      match ParseEscape(t[1..])
      case None => None
      case Some((c, rest)) =>
        match ParseString(rest)
        case None => None
        case Some((s, after)) => Some(([c] + s, after))
    else if (t[0] as int) < 0x20 then None
    else
      match ParseString(t[1..])
      case None => None
      case Some((s, after)) => Some(([t[0]] + s, after))
  }

  /** Reads `"..." (, "...")* ]`. */
  function ParseElements(t: string): (r: Option<seq<string>>)
    ensures r.Some? ==> |r.value| >= 1
    decreases |t|
  {
    if |t| == 0 || t[0] != '"' then None
    else match ParseString(t[1..])
      case None => None
      case Some((s, rest)) =>
        if rest == "]" then Some([s])
        else if |rest| >= 2 && rest[0] == ',' && rest[1] == ' ' then
          match ParseElements(rest[2..])
          case None => None
          case Some(more) => Some([s] + more)
        else None
  }

  /** `json.loads(t)` for a list of strings; `None` where it would raise. */
  function Decode(t: string): (r: Option<seq<string>>)
    ensures r.Some? ==> |t| >= 2 && t[0] == '['
    ensures r == Some([]) <==> t == "[]"
  {
    if t == "[]" then Some([])
    else if |t| >= 1 && t[0] == '[' then ParseElements(t[1..])
    else None
  }

  // ---------------------------------------------------------------------------
  // Round trip.
  // ---------------------------------------------------------------------------

  lemma SurrogatesRoundTrip(c: char)
    requires (c as int) >= 0x10000
    ensures var v := c as int - 0x10000;
      && 0xD800 <= 0xD800 + v / 0x400 < 0xDC00
      && 0xDC00 <= 0xDC00 + v % 0x400 < 0xE000
      && CombineSurrogates(0xD800 + v / 0x400, 0xDC00 + v % 0x400) == c as int
  {
    var v := c as int - 0x10000;
    assert v < 0x100000;
    assert v == v / 0x400 * 0x400 + v % 0x400;
  }

  /** The `\\uXXXX` escape of a basic-plane character reads back. */
  lemma BasicEscapeRoundTrip(c: char, rest: string)
    requires !IsPlain(c) && (c as int) < 0x10000
    requires c != '"' && c != '\\' && c != '\n' && c != '\r' && c != '\t' && c != '\U{8}' && c != '\U{C}'
    ensures ParseEscape(EscapeChar(c)[1..] + rest) == Some((c, rest))
  {
    var t := EscapeChar(c)[1..] + rest;
    assert t == "u" + Hex4(c as int) + rest;
    assert t[1..5] == Hex4(c as int);
    Hex4RoundTrip(c as int);
    assert t[5..] == rest;
  }

  /** The surrogate-pair escape of a character outside the basic plane reads
      back. */
  lemma PairEscapeRoundTrip(c: char, rest: string)
    requires (c as int) >= 0x10000
    ensures ParseEscape(EscapeChar(c)[1..] + rest) == Some((c, rest))
  {
    var v := c as int - 0x10000;
    var hi := 0xD800 + v / 0x400;
    var lo := 0xDC00 + v % 0x400;
    SurrogatesRoundTrip(c);
    var t := EscapeChar(c)[1..] + rest;
    assert t == "u" + Hex4(hi) + "\\u" + Hex4(lo) + rest;
    PairSlices(Hex4(hi), Hex4(lo), rest);
    Hex4RoundTrip(hi);
    Hex4RoundTrip(lo);
  }

  /** Where the pieces of a surrogate-pair escape sit. */
  lemma PairSlices(a: string, b: string, rest: string)
    requires |a| == 4 && |b| == 4
    ensures var t := "u" + a + "\\u" + b + rest;
      t[0] == 'u' && t[1..5] == a && t[5] == '\\' && t[6] == 'u' && t[7..11] == b && t[11..] == rest
  {
  }

  /** One escaped character, followed by anything, reads back as that
      character followed by the same rest. */
  lemma EscapeCharRoundTrip(c: char, rest: string)
    requires !IsPlain(c)
    ensures ParseEscape(EscapeChar(c)[1..] + rest) == Some((c, rest))
  {
    if c == '"' || c == '\\' || c == '\n' || c == '\r' || c == '\t' || c == '\U{8}' || c == '\U{C}' {
      assert (EscapeChar(c)[1..] + rest)[1..] == rest;
    } else if (c as int) < 0x10000 {
      BasicEscapeRoundTrip(c, rest);
    } else {
      PairEscapeRoundTrip(c, rest);
    }
  }

  /** One escaped character in front of a readable literal body reads back
      as that character in front of what the body reads as. */
  lemma EscapedCharThen(c: char, tail: string, x: string, rest: string)
    requires ParseString(tail) == Some((x, rest))
    ensures ParseString(EscapeChar(c) + tail) == Some(([c] + x, rest))
  {
    var t := EscapeChar(c) + tail;
    if IsPlain(c) {
      assert t[0] == c && t[1..] == tail;
    } else {
      assert t[0] == '\\';
      assert t[1..] == EscapeChar(c)[1..] + tail;
      EscapeCharRoundTrip(c, tail);
    }
  }

  /** An escaped string, its closing quote, and anything after it read back
      as the string and that rest. */
  lemma {:induction false} StringRoundTrip(s: string, rest: string)
    ensures ParseString(EscapeString(s) + "\"" + rest) == Some((s, rest))
    decreases |s|
  {
    if |s| == 0 {
      var t := EscapeString(s) + "\"" + rest;
      assert t == "\"" + rest;
      assert t[1..] == rest;
    } else {
      var tail := EscapeString(s[1..]) + "\"" + rest;
      assert EscapeString(s) + "\"" + rest == EscapeChar(s[0]) + tail;
      StringRoundTrip(s[1..], rest);
      EscapedCharThen(s[0], tail, s[1..], rest);
      assert [s[0]] + s[1..] == s;
    }
  }

  /** An encoded string followed by anything: the opening quote, then a
      string literal body that reads back as the string and that rest. */
  lemma ElementHead(x: string, rest: string)
    ensures (EncodeString(x) + rest)[0] == '"'
    ensures ParseString((EncodeString(x) + rest)[1..]) == Some((x, rest))
  {
    assert (EncodeString(x) + rest)[1..] == EscapeString(x) + "\"" + rest;
    StringRoundTrip(x, rest);
  }

  /** The last element: an encoded string and the closing bracket. */
  lemma LastElement(x: string)
    ensures ParseElements(EncodeString(x) + "]") == Some([x])
  {
    ElementHead(x, "]");
  }

  /** An element, its separator, and further elements that read back. */
  lemma ElementThenMore(x: string, more: string, ys: seq<string>)
    requires ParseElements(more) == Some(ys)
    ensures ParseElements(EncodeString(x) + ", " + more) == Some([x] + ys)
  {
    var rest := ", " + more;
    assert EncodeString(x) + ", " + more == EncodeString(x) + rest;
    ElementHead(x, rest);
    assert rest != "]" && rest[2..] == more;
  }

  lemma {:induction false} ElementsRoundTrip(xs: seq<string>)
    requires |xs| >= 1
    ensures ParseElements(EncodeElements(xs) + "]") == Some(xs)
    decreases |xs|
  {
    if |xs| == 1 {
      LastElement(xs[0]);
      assert [xs[0]] == xs;
    } else {
      var more := EncodeElements(xs[1..]) + "]";
      assert EncodeElements(xs) + "]" == EncodeString(xs[0]) + ", " + more;
      ElementsRoundTrip(xs[1..]);
      ElementThenMore(xs[0], more, xs[1..]);
      assert [xs[0]] + xs[1..] == xs;
    }
  }

  /** `json.loads(json.dumps(xs)) == xs` for every list of strings. */
  lemma RoundTrip(xs: seq<string>)
    ensures Decode(Encode(xs)) == Some(xs)
  {
    if |xs| > 0 {
      var t := Encode(xs);
      assert t[1..] == EncodeElements(xs) + "]";
      ElementsRoundTrip(xs);
      assert EncodeElements(xs)[0] == '"';
    }
  }

  /** The encoding of a list is never the empty text, which the settings
      reader would take for "no list". */
  lemma EncodeNonEmpty(xs: seq<string>)
    ensures Encode(xs) != ""
  {
  }
}
