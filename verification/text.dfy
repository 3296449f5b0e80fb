/** The handful of Python string operations the bot relies on: `str(int)` and
    `int(str)` on identifiers, `str.strip`, `str.upper`, and `str.replace`
    (related to `str.split` / `str.join`). */
module Text {

  import opened Common

  // ---------------------------------------------------------------------------
  // Decimal identifiers: the bot stores ids as `str(id)` and reads them back
  // with `int(...)`.
  // ---------------------------------------------------------------------------

  predicate IsDigit(c: char) {
    '0' <= c <= '9'
  }

  function DigitChar(d: nat): (c: char)
    requires d < 10
    ensures IsDigit(c)
    ensures c as int - '0' as int == d
  {
    ('0' as int + d) as char
  }

  /** `str(n)` for a non-negative integer. */
  function Decimal(n: nat): (s: string)
    ensures |s| >= 1
    ensures forall i :: 0 <= i < |s| ==> IsDigit(s[i])
    decreases n
  {
    if n < 10 then [DigitChar(n)] else Decimal(n / 10) + [DigitChar(n % 10)]
  }

  /** `int(s)` restricted to plain digit strings; anything else is a parse error. */
  function ParseDecimal(s: string): (r: Option<nat>)
    ensures r.Some? ==> |s| >= 1
    decreases |s|
  {
    if |s| == 0 || !IsDigit(s[|s| - 1]) then None
    else
      var d := s[|s| - 1] as int - '0' as int;
      if |s| == 1 then Some(d)
      else match ParseDecimal(s[..|s| - 1])
        case None => None
        case Some(high) => Some(high * 10 + d)
  }

  /** Reading back a stored id gives the id that was written. */
  lemma {:induction false} DecimalRoundTrip(n: nat)
    ensures ParseDecimal(Decimal(n)) == Some(n)
    decreases n
  {
    if n >= 10 {
      var s := Decimal(n);
      assert s[..|s| - 1] == Decimal(n / 10);
      DecimalRoundTrip(n / 10);
    }
  }

  /** Distinct ids have distinct decimal spellings, so keying a table by
      `str(id)` loses nothing. */
  lemma DecimalInjective(m: nat, n: nat)
    requires Decimal(m) == Decimal(n)
    ensures m == n
  {
    DecimalRoundTrip(m);
    DecimalRoundTrip(n);
  }

  // ---------------------------------------------------------------------------
  // str.strip(): Python's whitespace set (str.isspace).
  // ---------------------------------------------------------------------------

  predicate IsSpace(c: char) {
    || ('\t' <= c <= '\r')                      // tab, line feed, vertical tab, form feed, carriage return
    || ('\U{1C}' <= c <= '\U{1F}') || c == ' '   // information separators, space
    || c == '\U{85}' || c == '\U{A0}' || c == '\U{1680}'
    || ('\U{2000}' <= c <= '\U{200A}')
    || c == '\U{2028}' || c == '\U{2029}' || c == '\U{202F}' || c == '\U{205F}' || c == '\U{3000}'
  }

  predicate AllSpace(s: string) {
    forall i :: 0 <= i < |s| ==> IsSpace(s[i])
  }

  function StripLeft(s: string): (r: string)
    ensures |r| <= |s| && r == s[|s| - |r|..]
    ensures AllSpace(s[..|s| - |r|])
    ensures |r| > 0 ==> !IsSpace(r[0])
    decreases |s|
  {
    if |s| > 0 && IsSpace(s[0]) then StripLeft(s[1..]) else s
  }

  function StripRight(s: string): (r: string)
    ensures |r| <= |s| && r == s[..|r|]
    ensures AllSpace(s[|r|..])
    ensures |r| > 0 ==> !IsSpace(r[|r| - 1])
    decreases |s|
  {
    if |s| > 0 && IsSpace(s[|s| - 1]) then StripRight(s[..|s| - 1]) else s
  }

  /** `s.strip()`: what is left has no whitespace at either end. */
  function Strip(s: string): (r: string)
    ensures |r| <= |s|
    ensures |r| > 0 ==> !IsSpace(r[0]) && !IsSpace(r[|r| - 1])
    ensures r == "" <==> AllSpace(s)
  {
    StripRight(StripLeft(s))
  }

  /** Stripping padding that is all whitespace from a word without outer
      whitespace gives back the word. */
  lemma {:induction false} StripPadded(pre: string, w: string, post: string)
    requires AllSpace(pre) && AllSpace(post)
    requires |w| > 0 && !IsSpace(w[0]) && !IsSpace(w[|w| - 1])
    ensures Strip(pre + w + post) == w
  {
    assert pre + w + post == pre + (w + post);
    StripLeftPadded(pre, w + post);
    StripRightPadded(w, post);
  }

  lemma {:induction false} StripLeftPadded(pre: string, t: string)
    requires AllSpace(pre)
    requires |t| > 0 && !IsSpace(t[0])
    ensures StripLeft(pre + t) == t
    decreases |pre|
  {
    if |pre| > 0 {
      assert (pre + t)[1..] == pre[1..] + t;
      StripLeftPadded(pre[1..], t);
    } else {
      assert pre + t == t;
    }
  }

  lemma {:induction false} StripRightPadded(t: string, post: string)
    requires AllSpace(post)
    requires |t| > 0 && !IsSpace(t[|t| - 1])
    ensures StripRight(t + post) == t
    decreases |post|
  {
    if |post| > 0 {
      assert (t + post)[..|t + post| - 1] == t + post[..|post| - 1];
      StripRightPadded(t, post[..|post| - 1]);
    } else {
      assert t + post == t;
    }
  }

  // ---------------------------------------------------------------------------
  // str.upper(). ASCII letters, plus the non-ASCII characters whose upper-case
  // form is spelled entirely in ASCII letters (dotless i, long s, sharp s and
  // the Latin ligatures). Every other character is kept as it is.
  // ---------------------------------------------------------------------------

  function UpperChar(c: char): string {
    if 'a' <= c <= 'z' then [(c as int - 32) as char]
    else if c == '\U{131}' then "I"                      // dotless i
    else if c == '\U{17F}' then "S"                      // long s
    else if c == '\U{DF}' then "SS"                      // sharp s
    else if c == '\U{FB00}' then "FF"
    else if c == '\U{FB01}' then "FI"
    else if c == '\U{FB02}' then "FL"
    else if c == '\U{FB03}' then "FFI"
    else if c == '\U{FB04}' then "FFL"
    else if c == '\U{FB05}' || c == '\U{FB06}' then "ST"
    else [c]
  }

  function Upper(s: string): (r: string)
    ensures |r| >= |s|
    ensures r == "" <==> s == ""
    ensures (forall i :: 0 <= i < |s| ==> IsUpperAlnum(s[i])) ==> r == s
    decreases |s|
  {
    if |s| == 0 then "" else UpperChar(s[0]) + Upper(s[1..])
  }

  function LowerAscii(c: char): char {
    if 'A' <= c <= 'Z' then (c as int + 32) as char else c
  }

  function Lower(s: string): (r: string)
    ensures |r| == |s|
    ensures forall i :: 0 <= i < |s| ==> r[i] == LowerAscii(s[i])
  {
    seq(|s|, i requires 0 <= i < |s| => LowerAscii(s[i]))
  }

  predicate IsUpperAlnum(c: char) {
    ('A' <= c <= 'Z') || IsDigit(c)
  }

  /** Upper-casing undoes lower-casing on words of capital letters and digits. */
  lemma {:induction false} UpperOfLower(s: string)
    requires forall i :: 0 <= i < |s| ==> IsUpperAlnum(s[i])
    ensures Upper(Lower(s)) == s
    decreases |s|
  {
    if |s| > 0 {
      var l := Lower(s);
      assert l[1..] == Lower(s[1..]);
      UpperCharOfLower(s[0]);
      UpperOfLower(s[1..]);
      assert Upper(l) == UpperChar(l[0]) + Upper(l[1..]);
    }
  }

  /** One character of `UpperOfLower`. */
  lemma UpperCharOfLower(c: char)
    requires IsUpperAlnum(c)
    ensures UpperChar(LowerAscii(c)) == [c]
  { }

  // ---------------------------------------------------------------------------
  // str.replace(pat, rep): leftmost, non-overlapping occurrences, scanned once.
  // ---------------------------------------------------------------------------

  predicate StartsWith(s: string, pat: string) {
    |pat| <= |s| && s[..|pat|] == pat
  }

  function ReplaceAll(s: string, pat: string, rep: string): string
    requires |pat| > 0
    decreases |s|
  {
    if |s| < |pat| then s
    else if StartsWith(s, pat) then rep + ReplaceAll(s[|pat|..], pat, rep)
    else [s[0]] + ReplaceAll(s[1..], pat, rep)
  }

  /** `s.split(pat)`: the pieces between the occurrences `ReplaceAll` finds. */
  function Split(s: string, pat: string): (parts: seq<string>)
    requires |pat| > 0
    ensures |parts| >= 1
    decreases |s|
  {
    if |s| < |pat| then [s]
    else if StartsWith(s, pat) then [""] + Split(s[|pat|..], pat)
    else
      var rest := Split(s[1..], pat);
      [[s[0]] + rest[0]] + rest[1..]
  }

  /** `sep.join(parts)`. */
  function Join(parts: seq<string>, sep: string): string
    requires |parts| >= 1
    decreases |parts|
  {
    if |parts| == 1 then parts[0] else parts[0] + sep + Join(parts[1..], sep)
  }

  predicate OccursAt(s: string, pat: string, i: int) {
    0 <= i <= |s| - |pat| && s[i..i + |pat|] == pat
  }

  /** `pat in s`. */
  predicate Occurs(s: string, pat: string) {
    exists i :: 0 <= i <= |s| - |pat| && OccursAt(s, pat, i)
  }

  lemma JoinPrepend(c: char, parts: seq<string>, sep: string)
    requires |parts| >= 1
    ensures [c] + Join(parts, sep) == Join([[c] + parts[0]] + parts[1..], sep)
  {
    var q := [[c] + parts[0]] + parts[1..];
    assert q[1..] == parts[1..];
  }

  /** `s.replace(pat, rep) == rep.join(s.split(pat))`: the text between
      occurrences is kept verbatim, and each occurrence becomes `rep`. */
  lemma {:induction false} ReplaceIsJoinOfSplit(s: string, pat: string, rep: string)
    requires |pat| > 0
    ensures ReplaceAll(s, pat, rep) == Join(Split(s, pat), rep)
    decreases |s|
  {
    if |s| < |pat| {
    } else if StartsWith(s, pat) {
      ReplaceIsJoinOfSplit(s[|pat|..], pat, rep);
      var parts := [""] + Split(s[|pat|..], pat);
      assert parts[1..] == Split(s[|pat|..], pat);
    } else {
      ReplaceIsJoinOfSplit(s[1..], pat, rep);
      JoinPrepend(s[0], Split(s[1..], pat), rep);
    }
  }

  /** Splitting and re-joining with the same separator restores the text. */
  lemma {:induction false} JoinOfSplit(s: string, pat: string)
    requires |pat| > 0
    ensures Join(Split(s, pat), pat) == s
    decreases |s|
  {
    if |s| < |pat| {
    } else if StartsWith(s, pat) {
      JoinOfSplit(s[|pat|..], pat);
      var parts := [""] + Split(s[|pat|..], pat);
      assert parts[1..] == Split(s[|pat|..], pat);
      assert s == pat + s[|pat|..];
    } else {
      JoinOfSplit(s[1..], pat);
      JoinPrepend(s[0], Split(s[1..], pat), pat);
      assert s == [s[0]] + s[1..];
    }
  }

  /** A text without the placeholder is left untouched by the replacement. */
  lemma {:induction false} ReplaceAbsent(s: string, pat: string, rep: string)
    requires |pat| > 0
    requires !Occurs(s, pat)
    ensures ReplaceAll(s, pat, rep) == s
    decreases |s|
  {
    if |s| >= |pat| {
      assert s[0..|pat|] == s[..|pat|];
      assert !OccursAt(s, pat, 0);
      if Occurs(s[1..], pat) {
        var i :| 0 <= i <= |s[1..]| - |pat| && OccursAt(s[1..], pat, i);
        assert s[i + 1..i + 1 + |pat|] == s[1..][i..i + |pat|];
        assert OccursAt(s, pat, i + 1);
        assert false;
      }
      ReplaceAbsent(s[1..], pat, rep);
      assert s == [s[0]] + s[1..];
    }
  }
}
