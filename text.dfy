/** Text primitives of Rust's `str` that the parsers rely on.

    Strings are sequences of Unicode scalar values. Where Rust measures a
    string in bytes (`str::len`, slicing with `[a..b]`) the model measures the
    UTF-8 encoding explicitly with `ByteLen`. */
module Text {
  import opened Wrappers

  // ---------------------------------------------------------------------
  // Whitespace, trimming, splitting
  // ---------------------------------------------------------------------

  /** The Unicode `White_Space` property, which `str::trim`,
      `str::split_whitespace` and the regex class `\s` all use. */
  predicate IsWhitespace(c: char) {
    || ('\t' <= c <= '\r') || c == ' ' || c == '\U{0085}' || c == '\U{00A0}'
    || c == '\U{1680}' || ('\U{2000}' <= c <= '\U{200A}')
    || c == '\U{2028}' || c == '\U{2029}' || c == '\U{202F}' || c == '\U{205F}'
    || c == '\U{3000}'
  }

  predicate AllWhitespace(s: string) {
    forall i :: 0 <= i < |s| ==> IsWhitespace(s[i])
  }

  predicate NoWhitespace(s: string) {
    forall i :: 0 <= i < |s| ==> !IsWhitespace(s[i])
  }

  /** `str::trim_start`. */
  function TrimStart(s: string): (r: string)
    ensures |r| <= |s|
    ensures r != [] ==> !IsWhitespace(r[0])
  {
    if s != [] && IsWhitespace(s[0]) then TrimStart(s[1..]) else s
  }

  /** `str::trim_end`. */
  function TrimEnd(s: string): (r: string)
    ensures |r| <= |s|
    ensures r != [] ==> !IsWhitespace(r[|r| - 1])
  {
    if s != [] && IsWhitespace(s[|s| - 1]) then TrimEnd(s[..|s| - 1]) else s
  }

  /** `str::trim`: the text with leading and trailing whitespace removed. */
  function Trim(s: string): (r: string)
    ensures |r| <= |s|
    ensures r != [] ==> !IsWhitespace(r[0]) && !IsWhitespace(r[|r| - 1])
  {
    var t := TrimStart(s);
    TrimEndIsPrefix(t);
    TrimEnd(t)
  }

  /** `trim_start` removes a prefix. */
  lemma {:induction false} TrimStartIsSuffix(s: string)
    ensures TrimStart(s) == s[|s| - |TrimStart(s)|..]
  {
    if s != [] && IsWhitespace(s[0]) {
      TrimStartIsSuffix(s[1..]);
    }
  }

  /** `trim_end` removes a suffix. */
  lemma {:induction false} TrimEndIsPrefix(s: string)
    ensures TrimEnd(s) == s[..|TrimEnd(s)|]
  {
    if s != [] && IsWhitespace(s[|s| - 1]) {
      TrimEndIsPrefix(s[..|s| - 1]);
    }
  }

  /** What `trim_start` removes is whitespace. */
  lemma {:induction false} TrimStartRemovesWhitespace(s: string)
    ensures AllWhitespace(s[..|s| - |TrimStart(s)|])
  {
    if s != [] && IsWhitespace(s[0]) {
      TrimStartRemovesWhitespace(s[1..]);
      assert s[..|s| - |TrimStart(s)|] == [s[0]] + s[1..][..|s| - 1 - |TrimStart(s)|];
    }
  }

  /** Padding the text with whitespace does not change what `trim` returns. */
  lemma {:induction false} TrimPadded(w1: string, s: string, w2: string)
    requires AllWhitespace(w1) && AllWhitespace(w2)
    requires s != [] ==> !IsWhitespace(s[0]) && !IsWhitespace(s[|s| - 1])
    ensures Trim(w1 + s + w2) == s
  {
    if s == [] {
      assert w1 + s + w2 == w1 + w2;
      TrimEndAllWhitespace(w1 + w2);
    } else {
      ConcatAssoc(w1, s, w2);
      TrimStartPadded(w1, s + w2);
      TrimEndPadded(s, w2);
    }
  }

  /** Text without whitespace at its ends is its own trim. */
  lemma TrimUnpadded(s: string)
    requires s != [] ==> !IsWhitespace(s[0]) && !IsWhitespace(s[|s| - 1])
    ensures Trim(s) == s
  {
  }

  lemma {:induction false} TrimStartPadded(w: string, s: string)
    requires AllWhitespace(w)
    requires s != [] ==> !IsWhitespace(s[0])
    ensures TrimStart(w + s) == s
  {
    if w != [] {
      assert (w + s)[1..] == w[1..] + s;
      TrimStartPadded(w[1..], s);
    } else {
      assert w + s == s;
    }
  }

  lemma {:induction false} TrimEndPadded(s: string, w: string)
    requires AllWhitespace(w)
    requires s != [] ==> !IsWhitespace(s[|s| - 1])
    ensures TrimEnd(s + w) == s
  {
    if w == [] {
      assert s + w == s;
    } else {
      assert (s + w)[..|s + w| - 1] == s + w[..|w| - 1];
      TrimEndPadded(s, w[..|w| - 1]);
    }
  }

  lemma {:induction false} TrimEndAllWhitespace(w: string)
    requires AllWhitespace(w)
    ensures TrimEnd(w) == [] && TrimStart(w) == []
  {
    if w != [] {
      TrimEndAllWhitespace(w[..|w| - 1]);
      TrimEndAllWhitespace(w[1..]);
    }
  }

  /** Length of the leading run of non-whitespace characters. */
  function TokenLength(s: string): (n: nat)
    ensures n <= |s|
    ensures n < |s| ==> IsWhitespace(s[n])
    ensures s != [] && !IsWhitespace(s[0]) ==> n > 0
  {
    if s == [] || IsWhitespace(s[0]) then 0 else 1 + TokenLength(s[1..])
  }

  lemma {:induction false} TokenHasNoWhitespace(s: string)
    ensures NoWhitespace(s[..TokenLength(s)])
  {
    if s != [] && !IsWhitespace(s[0]) {
      TokenHasNoWhitespace(s[1..]);
      assert s[..TokenLength(s)] == [s[0]] + s[1..][..TokenLength(s[1..])];
    }
  }

  /** `str::split_whitespace`: the maximal runs of non-whitespace characters,
      in order. */
  function SplitWhitespace(s: string): (tokens: seq<string>)
    decreases |s|
  {
    var t := TrimStart(s);
    if t == [] then []
    else
      var n := TokenLength(t);
      [t[..n]] + SplitWhitespace(t[n..])
  }

  /** Every token is non-empty and holds no whitespace. */
  lemma {:induction false} SplitWhitespaceTokens(s: string)
    ensures forall i :: 0 <= i < |SplitWhitespace(s)| ==>
      SplitWhitespace(s)[i] != [] && NoWhitespace(SplitWhitespace(s)[i])
    decreases |s|
  {
    var t := TrimStart(s);
    if t != [] {
      var n := TokenLength(t);
      var tokens := SplitWhitespace(s);
      var rest := SplitWhitespace(t[n..]);
      assert tokens == [t[..n]] + rest;
      TokenHasNoWhitespace(t);
      SplitWhitespaceTokens(t[n..]);
      forall i | 0 <= i < |tokens|
        ensures tokens[i] != [] && NoWhitespace(tokens[i])
      {
        if i > 0 {
          assert tokens[i] == rest[i - 1];
        }
      }
    }
  }

  /** A token preceded by whitespace is split into that one token. */
  lemma SplitOneToken(w: string, b: string)
    requires AllWhitespace(w) && b != [] && NoWhitespace(b)
    ensures SplitWhitespace(w + b) == [b]
  {
    TrimStartPadded(w, b);
    TokenLengthOf(b, []);
    assert b + [] == b;
    assert b[|b|..] == [];
  }

  /** Two tokens separated by whitespace are split back into exactly those
      two tokens. */
  lemma SplitTwoTokens(a: string, w: string, b: string)
    requires w != [] && AllWhitespace(w)
    requires a != [] && NoWhitespace(a) && b != [] && NoWhitespace(b)
    ensures SplitWhitespace(a + w + b) == [a, b]
  {
    ConcatAssoc(a, w, b);
    SplitTokenThenToken(a, w, b);
  }

  /** A name, one space and a surname split into that name and surname. */
  lemma SplitNameSurname(name: string, surname: string)
    requires name != [] && NoWhitespace(name) && surname != [] && NoWhitespace(surname)
    ensures SplitWhitespace(name + " " + surname) == [name, surname]
  {
    assert AllWhitespace(" ") by { assert IsWhitespace(' '); }
    SplitTwoTokens(name, " ", surname);
  }

  /** A trimmed name, one space and a surname split into that name and
      surname. */
  lemma SplitTrimmedNameSurname(name: string, surname: string)
    requires name != [] && NoWhitespace(name) && surname != [] && NoWhitespace(surname)
    ensures SplitWhitespace(Trim(name + " " + surname)) == [name, surname]
  {
    var title := name + " " + surname;
    assert title[0] == name[0] && title[|title| - 1] == surname[|surname| - 1];
    TrimUnpadded(title);
    SplitNameSurname(name, surname);
  }

  lemma SplitTokenThenToken(a: string, w: string, b: string)
    requires w != [] && AllWhitespace(w)
    requires a != [] && NoWhitespace(a) && b != [] && NoWhitespace(b)
    ensures SplitWhitespace(a + (w + b)) == [a, b]
  {
    SplitOneToken(w, b);
    SplitAfterToken(a, w + b);
  }

  lemma ConcatAssoc(p: string, q: string, r: string)
    ensures p + q + r == p + (q + r)
  {
  }

  /** A token followed by whitespace (or nothing) is the first token. */
  lemma SplitAfterToken(a: string, rest: string)
    requires a != [] && NoWhitespace(a)
    requires rest != [] ==> IsWhitespace(rest[0])
    ensures SplitWhitespace(a + rest) == [a] + SplitWhitespace(rest)
  {
    var t := a + rest;
    TokenLengthOf(a, rest);
    assert t[..|a|] == a;
    assert t[|a|..] == rest;
  }

  lemma {:induction false} TokenLengthOf(a: string, rest: string)
    requires NoWhitespace(a)
    requires rest != [] ==> IsWhitespace(rest[0])
    ensures TokenLength(a + rest) == |a|
  {
    if a != [] {
      assert (a + rest)[1..] == a[1..] + rest;
      TokenLengthOf(a[1..], rest);
    } else {
      assert a + rest == rest;
    }
  }

  // ---------------------------------------------------------------------
  // Prefixes, suffixes, substrings
  // ---------------------------------------------------------------------

  predicate EndsWith(s: string, c: char) {
    s != [] && s[|s| - 1] == c
  }

  /** `str::trim_end_matches(c)`: every trailing `c` removed. */
  function TrimEndMatches(s: string, c: char): (r: string)
    ensures |r| <= |s| && r == s[..|r|]
    ensures !EndsWith(r, c)
  {
    if EndsWith(s, c) then TrimEndMatches(s[..|s| - 1], c) else s
  }

  predicate StartsWith(s: string, prefix: string) {
    |prefix| <= |s| && s[..|prefix|] == prefix
  }

  /** `str::contains` with a string pattern. */
  predicate Contains(s: string, pattern: string) {
    exists i :: 0 <= i <= |s| - |pattern| && OccursAt(s, pattern, i)
  }

  predicate OccursAt(s: string, pattern: string, i: nat) {
    i + |pattern| <= |s| && s[i..i + |pattern|] == pattern
  }

  // ---------------------------------------------------------------------
  // Numbers
  // ---------------------------------------------------------------------

  predicate IsDigit(c: char) { '0' <= c <= '9' }

  predicate AllDigits(s: string) {
    forall i :: 0 <= i < |s| ==> IsDigit(s[i])
  }

  function DigitValue(c: char): nat
    requires IsDigit(c)
  {
    (c as int - '0' as int) as nat
  }

  /** The decimal value of a string of ASCII digits. */
  function DecimalValue(s: string): nat
    requires AllDigits(s)
  {
    if s == [] then 0 else DecimalValue(s[..|s| - 1]) * 10 + DigitValue(s[|s| - 1])
  }

  /** Length of the leading run of ASCII digits. */
  function DigitRun(s: string): (n: nat)
    ensures n <= |s| && AllDigits(s[..n])
    ensures n < |s| ==> !IsDigit(s[n])
  {
    if s == [] || !IsDigit(s[0]) then 0 else 1 + DigitRun(s[1..])
  }

  /** A run of digits followed by anything that does not start with a digit
      is read up to its end. */
  lemma {:induction false} DigitRunOf(d: string, rest: string)
    requires AllDigits(d)
    requires rest != [] ==> !IsDigit(rest[0])
    ensures DigitRun(d + rest) == |d|
  {
    if d != [] {
      assert (d + rest)[1..] == d[1..] + rest;
      DigitRunOf(d[1..], rest);
    } else {
      assert d + rest == rest;
    }
  }

  predicate NoDigits(s: string) {
    forall i :: 0 <= i < |s| ==> !IsDigit(s[i])
  }

  /** The length of the longest prefix without a digit: the index of the first
      digit, or the length of `s` when there is none. */
  function SkipNonDigits(s: string): (n: nat)
    ensures n <= |s| && NoDigits(s[..n])
    ensures n < |s| ==> IsDigit(s[n])
  {
    if s == [] || IsDigit(s[0]) then 0
    else
      var n := 1 + SkipNonDigits(s[1..]);
      assert s[..n] == [s[0]] + s[1..][..n - 1];
      n
  }

  /** Text without digits followed by a digit is skipped up to that digit. */
  lemma {:induction false} SkipNonDigitsOf(w: string, rest: string)
    requires NoDigits(w)
    requires rest == [] || IsDigit(rest[0])
    ensures SkipNonDigits(w + rest) == |w|
  {
    if w != [] {
      assert (w + rest)[1..] == w[1..] + rest;
      SkipNonDigitsOf(w[1..], rest);
    } else {
      assert w + rest == rest;
    }
  }

  const U8_LIMIT: nat := 0x100
  const U16_LIMIT: nat := 0x1_0000
  const U32_LIMIT: nat := 0x1_0000_0000

  /** Rust's fixed-width unsigned integers. */
  type u8 = n: nat | n < U8_LIMIT
  type u16 = n: nat | n < U16_LIMIT
  type u32 = n: nat | n < U32_LIMIT

  /** `x as uN` for an integer `x`, with `limit` = 2^N: the low N bits of
      its two's complement, which is its remainder modulo 2^N (Dafny's `%`
      never gives a negative remainder). A value in range is kept. */
  function WrapTo(x: int, limit: nat): (n: nat)
    requires limit > 0
    ensures n < limit
    ensures 0 <= x < limit ==> n == x
    ensures x == (x / limit) * limit + n
  {
    x % limit
  }

  /** `<uN as FromStr>::from_str` with `limit` = 2^N: an optional `+`, then at
      least one ASCII digit and nothing else, of value below the limit. */
  function ParseUnsigned(s: string, limit: nat): (r: Option<nat>)
    ensures r.Some? ==> r.value < limit
  {
    var digits := if s != [] && s[0] == '+' then s[1..] else s;
    if digits != [] && AllDigits(digits) && DecimalValue(digits) < limit
    then Some(DecimalValue(digits))
    else None
  }

  /** The shortest decimal spelling of `n` (what `to_string` and serde_json
      print for an unsigned integer). */
  function NatToString(n: nat): (s: string)
    ensures s != [] && AllDigits(s)
  {
    if n < 10 then ['0' + n as char]
    else NatToString(n / 10) + ['0' + (n % 10) as char]
  }

  /** Reading the decimal spelling of a number gives the number back when
      it is in range, and fails otherwise. */
  lemma ParseUnsignedOfString(n: nat, limit: nat)
    ensures ParseUnsigned(NatToString(n), limit) == if n < limit then Some(n) else None
  {
    NatToStringValue(n);
    assert IsDigit(NatToString(n)[0]);
  }

  /** Printing a number and reading it back gives the number, and the
      spelling has no leading zero. */
  lemma {:induction false} NatToStringValue(n: nat)
    ensures DecimalValue(NatToString(n)) == n
    ensures NatToString(n)[0] != '0' || n == 0
  {
    var s := NatToString(n);
    if n >= 10 {
      NatToStringValue(n / 10);
      assert s[..|s| - 1] == NatToString(n / 10);
      assert s[0] == NatToString(n / 10)[0];
    }
  }

  /** Digits whose first is not a zero have a value of at least one. */
  lemma {:induction false} LeadingDigitPositive(d: string)
    requires d != [] && AllDigits(d) && d[0] != '0'
    ensures DecimalValue(d) >= 1
    decreases |d|
  {
    if |d| > 1 {
      assert d[..|d| - 1][0] == d[0];
      LeadingDigitPositive(d[..|d| - 1]);
    }
  }

  /** Digits without a leading zero, or a lone zero, are the shortest
      spelling of their value: the only one `NatToString` prints. */
  lemma {:induction false} CanonicalDigits(d: string)
    requires d != [] && AllDigits(d) && (|d| == 1 || d[0] != '0')
    ensures NatToString(DecimalValue(d)) == d
    decreases |d|
  {
    var init := d[..|d| - 1];
    var last := d[|d| - 1];
    if |d| == 1 {
      assert init == [];
      assert DecimalValue(d) == DigitValue(last);
      assert NatToString(DecimalValue(d)) == [last];
    } else {
      assert init[0] == d[0];
      CanonicalDigits(init);
      LeadingDigitPositive(init);
      var n := DecimalValue(d);
      assert n == DecimalValue(init) * 10 + DigitValue(last);
      assert n / 10 == DecimalValue(init) && n % 10 == DigitValue(last);
      assert d == init + [last];
    }
  }

  // ---------------------------------------------------------------------
  // Bytes
  // ---------------------------------------------------------------------

  /** Number of bytes of the UTF-8 encoding of one character. */
  function Utf8Len(c: char): (n: nat)
    ensures 1 <= n <= 4
  {
    if c as int < 0x80 then 1
    else if c as int < 0x800 then 2
    else if c as int < 0x1_0000 then 3
    else 4
  }

  /** `str::len`: the number of bytes of the UTF-8 encoding. */
  function ByteLen(s: string): (n: nat)
    ensures n >= |s|
    ensures s == [] <==> n == 0
  {
    if s == [] then 0 else Utf8Len(s[0]) + ByteLen(s[1..])
  }

  // ---------------------------------------------------------------------
  // ASCII case folding
  // ---------------------------------------------------------------------

  function AsciiLower(c: char): char {
    if 'A' <= c <= 'Z' then (c as int + 32) as char else c
  }

  /** `str::eq_ignore_ascii_case`. */
  predicate EqIgnoreAsciiCase(a: string, b: string) {
    |a| == |b| && forall i :: 0 <= i < |a| ==> AsciiLower(a[i]) == AsciiLower(b[i])
  }

  /** `str::to_ascii_lowercase`. */
  function LowerAscii(s: string): (t: string)
    ensures |t| == |s| && forall i :: 0 <= i < |s| ==> t[i] == AsciiLower(s[i])
  {
    seq(|s|, i requires 0 <= i < |s| => AsciiLower(s[i]))
  }

  /** Two texts are equal ignoring ASCII case exactly when their lower-case
      forms are equal. */
  lemma LowerAsciiMatches(a: string, b: string)
    ensures EqIgnoreAsciiCase(a, b) <==> LowerAscii(a) == LowerAscii(b)
  {
    if |a| == |b| && LowerAscii(a) != LowerAscii(b) {
      var i :| 0 <= i < |a| && LowerAscii(a)[i] != LowerAscii(b)[i];
    }
  }
}
