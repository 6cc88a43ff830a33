/** The records the loader writes and the backend reads (`speedwayrs-types`),
    and the text form a player's result is stored in: the JSON that serde
    writes for an externally tagged enum (RFC 8259). */
module Types {
  import opened Wrappers
  import opened Text

  /** The result of one rider in one run. */
  datatype PlayerResult =
    | Score(points: u8)
    | ScoreWithStar(points: u8)
    | Fall
    | Reserve
    | Defect
    | Tape
    | NotFinished
    | None

  /** Seconds since the epoch; the calendar is not modelled. */
  type Timestamp = int

  /** One run as the backend reports it: its number, its time in whole
      seconds and hundredths, and (rider, result) pairs. */
  datatype RunInfo = RunInfo(number: u8, time: Option<(u32, u16)>, playerScores: seq<(string, string)>)

  /** One rider's results, as (round, result) pairs. */
  datatype Player = Player(name: string, surname: string, scores: seq<(u8, PlayerResult)>)

  /** A match as the backend reports it. `MatchResult::new` stores its
      arguments and the accessors return them: both are the datatype's own
      constructor and fields. */
  datatype MatchResult = MatchResult(
    team1: string, team2: string, score1: u32, score2: u32,
    place: string, date: Timestamp, runs: seq<RunInfo>, playerResults: seq<Player>)

  // ---------------------------------------------------------------------
  // Encoding
  // ---------------------------------------------------------------------

  /** The name of a variant that carries no value. */
  function UnitName(r: PlayerResult): string
    requires !r.Score? && !r.ScoreWithStar?
  {
    match r
    case Fall => "Fall"
    case Reserve => "Reserve"
    case Defect => "Defect"
    case Tape => "Tape"
    case NotFinished => "NotFinished"
    case None => "None"
  }

  /** The variant without a value that a name denotes, if any. */
  function UnitVariant(name: string): (r: Option<PlayerResult>)
    ensures r.Some? ==> !r.value.Score? && !r.value.ScoreWithStar? && UnitName(r.value) == name
  {
    if name == "Fall" then Some(Fall)
    else if name == "Reserve" then Some(Reserve)
    else if name == "Defect" then Some(Defect)
    else if name == "Tape" then Some(Tape)
    else if name == "NotFinished" then Some(NotFinished)
    else if name == "None" then Some(PlayerResult.None)
    else Option.None
  }

  /** A JSON string holding `name`. */
  function QuotedText(name: string): string {
    "\"" + name + "\""
  }

  /** A JSON object with the single entry `key: value`, written compactly. */
  function ObjectText(key: string, value: string): string {
    "{" + QuotedText(key) + ":" + value + "}"
  }

  /** `PlayerResult::to_string`: compact JSON, a string for a variant
      without a value and a one-entry object for a score. */
  function Encode(r: PlayerResult): (t: string)
    ensures Compact(t) == t
    ensures t != [] && (t[0] == '{' <==> r.Score? || r.ScoreWithStar?)
  {
    match r
    case Score(n) =>
      DigitsPlain(NatToString(n));
      ObjectTextPlain("Score", NatToString(n));
      ObjectText("Score", NatToString(n))
    case ScoreWithStar(n) =>
      DigitsPlain(NatToString(n));
      ObjectTextPlain("ScoreWithStar", NatToString(n));
      ObjectText("ScoreWithStar", NatToString(n))
    case _ =>
      UnitNamePlain(r);
      CompactNotSpace(QuotedText(UnitName(r)));
      QuotedText(UnitName(r))
  }

  /** An object of text without whitespace is its own compact form. */
  lemma ObjectTextPlain(key: string, value: string)
    requires AllNotSpace(key) && AllNotSpace(value)
    ensures Compact(ObjectText(key, value)) == ObjectText(key, value)
  {
    CompactNotSpace(ObjectText(key, value));
  }

  // ---------------------------------------------------------------------
  // Decoding
  // ---------------------------------------------------------------------

  /** The four whitespace characters of JSON. */
  predicate IsJsonSpace(c: char) {
    c == ' ' || c == '\t' || c == '\n' || c == '\r'
  }

  predicate AllJsonSpace(s: string) {
    forall i :: 0 <= i < |s| ==> IsJsonSpace(s[i])
  }

  /** The index of the first character at or after `i` that is not JSON
      whitespace. */
  function SkipSpace(s: string, i: nat): (j: nat)
    requires i <= |s|
    ensures i <= j <= |s|
    ensures j < |s| ==> !IsJsonSpace(s[j])
    decreases |s| - i
  {
    if i < |s| && IsJsonSpace(s[i]) then SkipSpace(s, i + 1) else i
  }

  /** A character that may stand unescaped inside a JSON string. */
  predicate IsPlainChar(c: char) {
    c != '"' && c != '\\' && c >= ' '
  }

  predicate AllPlain(s: string) {
    forall i :: 0 <= i < |s| ==> IsPlainChar(s[i])
  }

  /** The contents of the string that starts after the opening quote at
      `i`, and the index after its closing quote. Escapes are not decoded:
      a backslash, like a control character, makes the text unreadable. */
  function ReadString(s: string, i: nat): (r: Option<(string, nat)>)
    requires i <= |s|
    ensures r.Some? ==> i < r.value.1 <= |s| && |r.value.0| == r.value.1 - i - 1
    decreases |s| - i
  {
    if i == |s| || !(s[i] == '"' || IsPlainChar(s[i])) then Option.None
    else if s[i] == '"' then Some(([], i + 1))
    else
      var rest := ReadString(s, i + 1);
      if rest.None? then Option.None else Some(([s[i]] + rest.value.0, rest.value.1))
  }

  /** A JSON number that is a `u8`: digits without a leading zero, not
      followed by a fraction or an exponent, of value at most 255; and the
      index after it. */
  function ReadU8(s: string, i: nat): (r: Option<(u8, nat)>)
    requires i <= |s|
    ensures r.Some? ==> i < r.value.1 <= |s|
  {
    var n := DigitRun(s[i..]);
    var digits := s[i..][..n];
    var end := i + n;
    if n == 0 || (n > 1 && digits[0] == '0') then Option.None
    else if end < |s| && (s[end] == '.' || s[end] == 'e' || s[end] == 'E') then Option.None
    else if DecimalValue(digits) >= U8_LIMIT then Option.None
    else Some((DecimalValue(digits), end))
  }

  /** The variant an object key names, given the value after the colon at
      `i`, and the index after that value: a `u8` for the two scores,
      `null` for the others. */
  function ReadEntry(key: string, s: string, i: nat): (r: Option<(PlayerResult, nat)>)
    requires i <= |s|
    ensures r.Some? ==> i < r.value.1 <= |s|
  {
    if key == "Score" || key == "ScoreWithStar" then
      var n := ReadU8(s, i);
      if n.None? then Option.None
      else Some((if key == "Score" then Score(n.value.0) else ScoreWithStar(n.value.0), n.value.1))
    else if UnitVariant(key).Some? && i + 4 <= |s| && s[i..i + 4] == "null" then
      Some((UnitVariant(key).value, i + 4))
    else Option.None
  }

  /** Only JSON whitespace remains from `i` on. */
  predicate AtEnd(s: string, i: nat)
    requires i <= |s|
  {
    SkipSpace(s, i) == |s|
  }

  /** The object form `{"Key": value}` that starts at the brace at `i`. */
  function DecodeObject(s: string, i: nat): Option<PlayerResult>
    requires i < |s|
  {
    var k := SkipSpace(s, i + 1);
    if k == |s| || s[k] != '"' then Option.None else DecodeKey(s, k + 1)
  }

  /** The rest of an object from just after the quote opening its key. */
  function DecodeKey(s: string, k: nat): Option<PlayerResult>
    requires k <= |s|
  {
    var key := ReadString(s, k);
    if key.None? then Option.None else DecodeValue(s, key.value.0, SkipSpace(s, key.value.1))
  }

  /** The rest of an object with key `key` from where its colon should be. */
  function DecodeValue(s: string, key: string, colon: nat): Option<PlayerResult>
    requires colon <= |s|
  {
    if colon == |s| || s[colon] != ':' then Option.None
    else
      var entry := ReadEntry(key, s, SkipSpace(s, colon + 1));
      if entry.None? then Option.None else CloseObject(s, entry.value.0, entry.value.1)
  }

  /** `r` if the object closes at or after `i` and nothing but whitespace
      follows. */
  function CloseObject(s: string, r: PlayerResult, i: nat): Option<PlayerResult>
    requires i <= |s|
  {
    var close := SkipSpace(s, i);
    if close == |s| || s[close] != '}' || !AtEnd(s, close + 1) then Option.None else Some(r)
  }

  /** `PlayerResult::from_str`: the variant the JSON text denotes, or `None`
      for any text that is not one: a string naming a variant without a
      value, or an object with exactly one entry whose key names a variant,
      with JSON whitespace allowed between the tokens. Whatever it reads is
      the result's own encoding once the whitespace is taken out (or, for a
      variant without a value, the object form with `null`), so no other
      text is read as a result. */
  function Decode(s: string): (r: Option<PlayerResult>)
    ensures r.Some? ==> CompactOf(Compact(s), r.value)
  {
    var i := SkipSpace(s, 0);
    if i == |s| then Option.None
    else if s[i] == '"' then
      var name := ReadString(s, i + 1);
      if name.None? || !AtEnd(s, name.value.1) || UnitVariant(name.value.0).None? then Option.None
      else
        CompactFromStart(s);
        CompactQuoted(s, i);
        UnitVariant(name.value.0)
    else if s[i] == '{' then
      var r := DecodeObject(s, i);
      if r.None? then Option.None
      else
        CompactFromStart(s);
        CompactObject(s, i);
        r
    else Option.None
  }

  // ---------------------------------------------------------------------
  // Compact text
  // ---------------------------------------------------------------------

  /** `s` with every JSON whitespace character taken out. */
  function Compact(s: string): (t: string)
    ensures |t| <= |s|
  {
    if s == [] then [] else (if IsJsonSpace(s[0]) then [] else [s[0]]) + Compact(s[1..])
  }

  /** `t` is the compact text of `r`: its encoding, or for a variant
      without a value the object form with `null`, which serde reads too. */
  predicate CompactOf(t: string, r: PlayerResult) {
    t == Encode(r) || (!r.Score? && !r.ScoreWithStar? && t == ObjectText(UnitName(r), "null"))
  }

  lemma {:induction false} CompactAppend(a: string, b: string)
    ensures Compact(a + b) == Compact(a) + Compact(b)
  {
    if a == [] {
      assert a + b == b;
    } else {
      assert (a + b)[1..] == a[1..] + b;
      CompactAppend(a[1..], b);
    }
  }

  /** Text without whitespace is its own compact form. */
  lemma {:induction false} CompactNotSpace(x: string)
    requires AllNotSpace(x)
    ensures Compact(x) == x
  {
    if x != [] {
      CompactNotSpace(x[1..]);
    }
  }

  /** The compact text from `i` on: the character at `i`, unless it is
      whitespace, then the compact rest. */
  lemma CompactAt(s: string, i: nat)
    requires i < |s|
    ensures Compact(s[i..]) == (if IsJsonSpace(s[i]) then [] else [s[i]]) + Compact(s[i + 1..])
  {
    assert s[i..][1..] == s[i + 1..];
  }

  /** Skipping whitespace does not change the compact text. */
  lemma {:induction false} CompactSkip(s: string, i: nat)
    requires i <= |s|
    ensures Compact(s[i..]) == Compact(s[SkipSpace(s, i)..])
    decreases |s| - i
  {
    if i < |s| && IsJsonSpace(s[i]) {
      CompactAt(s, i);
      CompactSkip(s, i + 1);
    }
  }

  lemma CompactFromStart(s: string)
    ensures Compact(s) == Compact(s[SkipSpace(s, 0)..])
  {
    assert s[0..] == s;
    CompactSkip(s, 0);
  }

  /** Nothing but whitespace compacts to nothing. */
  lemma CompactAtEnd(s: string, i: nat)
    requires i <= |s| && AtEnd(s, i)
    ensures Compact(s[i..]) == []
  {
    CompactSkip(s, i);
    assert s[|s|..] == [];
  }

  /** The compact text from the start of a string's contents: the
      contents, the closing quote, then the rest. */
  lemma {:induction false} CompactString(s: string, i: nat)
    requires i <= |s| && ReadString(s, i).Some?
    ensures Compact(s[i..]) == Compact(ReadString(s, i).value.0) + "\"" + Compact(s[ReadString(s, i).value.1..])
    decreases |s| - i
  {
    CompactAt(s, i);
    var r := ReadString(s, i).value;
    if s[i] == '"' {
      assert r == ([], i + 1) && !IsJsonSpace(s[i]);
      assert Compact(r.0) == [];
      assert Compact(s[i..]) == "\"" + Compact(s[i + 1..]);
      assert Compact(s[i..]) == Compact(r.0) + "\"" + Compact(s[r.1..]);
    } else {
      var tail := ReadString(s, i + 1).value;
      assert r == ([s[i]] + tail.0, tail.1);
      CompactString(s, i + 1);
      CompactAppend([s[i]], tail.0);
      var head := if IsJsonSpace(s[i]) then [] else [s[i]];
      assert Compact([s[i]]) == head + Compact([]);
      assert Compact(r.0) == head + Compact(tail.0);
      assert Compact(s[i..]) == head + (Compact(tail.0) + "\"" + Compact(s[tail.1..]));
      JoinQuoted(head, Compact(tail.0), Compact(s[tail.1..]), Compact(s[i..]), Compact(r.0));
    }
  }

  /** Regrouping the text around a closing quote. */
  lemma JoinQuoted(head: string, contents: string, rest: string, whole: string, text: string)
    requires whole == head + (contents + "\"" + rest) && text == head + contents
    ensures whole == text + "\"" + rest
  {
  }

  /** The digits `ReadU8` accepts are the spelling `to_string` prints for
      their value: no leading zero is admitted. */
  lemma ReadU8Spelling(s: string, i: nat)
    requires i <= |s| && ReadU8(s, i).Some?
    ensures s[i..ReadU8(s, i).value.1] == NatToString(ReadU8(s, i).value.0)
  {
    var n := DigitRun(s[i..]);
    var digits := s[i..][..n];
    assert s[i..i + n] == digits;
    CanonicalDigits(digits);
  }

  /** The value of `r` in the compact object form: a score's points as
      `to_string` prints them, `null` for a variant without a value. */
  function ValueText(r: PlayerResult): string {
    if r.Score? || r.ScoreWithStar? then NatToString(r.points) else "null"
  }

  /** `key` is the object key that is read as `r`. */
  predicate KeyOf(key: string, r: PlayerResult) {
    if r.Score? || r.ScoreWithStar? then key == ScoreKey(r) else UnitVariant(key) == Some(r)
  }

  /** The compact text from an entry's value: the value, then the rest. */
  lemma CompactEntry(key: string, s: string, v: nat)
    requires v <= |s| && ReadEntry(key, s, v).Some?
    ensures KeyOf(key, ReadEntry(key, s, v).value.0)
    ensures Compact(s[v..]) == ValueText(ReadEntry(key, s, v).value.0) + Compact(s[ReadEntry(key, s, v).value.1..])
  {
    var (r, e) := ReadEntry(key, s, v).value;
    assert s[v..] == s[v..e] + s[e..];
    CompactAppend(s[v..e], s[e..]);
    if key == "Score" || key == "ScoreWithStar" {
      ReadU8Spelling(s, v);
      DigitsPlain(s[v..e]);
      CompactNotSpace(s[v..e]);
    } else {
      assert AllNotSpace("null");
      CompactNotSpace(s[v..e]);
    }
  }

  /** The compact text from where an object should close: the brace. */
  lemma CompactClose(s: string, r: PlayerResult, i: nat)
    requires i <= |s| && CloseObject(s, r, i).Some?
    ensures Compact(s[i..]) == "}"
  {
    var close := SkipSpace(s, i);
    CompactSkip(s, i);
    CompactAt(s, close);
    CompactAtEnd(s, close + 1);
  }

  /** A colon, whitespace, a value and the close compact to the colon, the
      value and the brace. */
  lemma CompactColon(s: string, colon: nat, v: nat, e: nat, value: string)
    requires colon < |s| && s[colon] == ':' && SkipSpace(s, colon + 1) == v && e <= |s|
    requires Compact(s[v..]) == value + Compact(s[e..]) && Compact(s[e..]) == "}"
    ensures Compact(s[colon..]) == ":" + value + "}"
  {
    CompactAt(s, colon);
    CompactSkip(s, colon + 1);
  }

  /** The compact text of an object from where its colon should be: the
      colon, the value and the closing brace. */
  lemma CompactValue(s: string, key: string, colon: nat)
    requires colon <= |s| && DecodeValue(s, key, colon).Some?
    ensures KeyOf(key, DecodeValue(s, key, colon).value)
    ensures Compact(s[colon..]) == ":" + ValueText(DecodeValue(s, key, colon).value) + "}"
  {
    var v := SkipSpace(s, colon + 1);
    var entry := ReadEntry(key, s, v).value;
    assert DecodeValue(s, key, colon) == CloseObject(s, entry.0, entry.1);
    CompactEntry(key, s, v);
    CompactClose(s, entry.0, entry.1);
    CompactColon(s, colon, v, entry.1, ValueText(entry.0));
  }

  /** A key that is read as a result has no whitespace in it. */
  lemma KeyNotSpace(key: string, r: PlayerResult)
    requires KeyOf(key, r)
    ensures AllNotSpace(key)
  {
    if r.Score? || r.ScoreWithStar? {
      ScoreKeyPlain(r);
    } else {
      UnitNamePlain(r);
    }
  }

  /** The pieces of a compact object, from the key on, behind its brace and
      opening quote. */
  lemma ObjectTextOf(key: string, value: string, t: string, rest: string)
    requires t == key + "\"" + rest && rest == ":" + value + "}"
    ensures "{\"" + t == ObjectText(key, value)
  {
  }

  /** The compact text of an object from just after its key's opening
      quote: the key, its closing quote, then the colon, the value and the
      brace; with the brace and quote in front it is the compact text of
      what the object reads as. */
  lemma CompactKey(s: string, k: nat)
    requires k <= |s| && DecodeKey(s, k).Some?
    ensures CompactOf("{\"" + Compact(s[k..]), DecodeKey(s, k).value)
  {
    var (key, e) := ReadString(s, k).value;
    var r := DecodeKey(s, k).value;
    assert r == DecodeValue(s, key, SkipSpace(s, e)).value;
    CompactString(s, k);
    CompactSkip(s, e);
    CompactValue(s, key, SkipSpace(s, e));
    KeyNotSpace(key, r);
    CompactNotSpace(key);
    ObjectTextOf(key, ValueText(r), Compact(s[k..]), Compact(s[e..]));
    if !r.Score? && !r.ScoreWithStar? {
      assert key == UnitName(r);
    }
  }

  /** A string that reads to the end compacts to its quoted contents. */
  lemma CompactQuotedAt(s: string, i: nat, name: string, e: nat)
    requires i < |s| && s[i] == '"' && e <= |s| && AllNotSpace(name)
    requires Compact(s[i + 1..]) == Compact(name) + "\"" + Compact(s[e..]) && Compact(s[e..]) == []
    ensures Compact(s[i..]) == QuotedText(name)
  {
    CompactAt(s, i);
    CompactNotSpace(name);
  }

  /** A string that names a variant without a value, followed only by
      whitespace, compacts to that variant's encoding. */
  lemma CompactQuoted(s: string, i: nat)
    requires i < |s| && s[i] == '"' && ReadString(s, i + 1).Some? && AtEnd(s, ReadString(s, i + 1).value.1)
    requires UnitVariant(ReadString(s, i + 1).value.0).Some?
    ensures Compact(s[i..]) == Encode(UnitVariant(ReadString(s, i + 1).value.0).value)
  {
    var (name, e) := ReadString(s, i + 1).value;
    var r := UnitVariant(name).value;
    CompactString(s, i + 1);
    CompactAtEnd(s, e);
    UnitNamePlain(r);
    CompactQuotedAt(s, i, name, e);
  }

  /** A brace, whitespace and a quote compact to the brace and the quote. */
  lemma CompactBrace(s: string, i: nat, k: nat)
    requires i < |s| && s[i] == '{' && SkipSpace(s, i + 1) == k && k < |s| && s[k] == '"'
    ensures Compact(s[i..]) == "{\"" + Compact(s[k + 1..])
  {
    CompactAt(s, i);
    CompactSkip(s, i + 1);
    CompactAt(s, k);
  }

  /** An object that decodes compacts to the compact text of what it
      decodes to. */
  lemma CompactObject(s: string, i: nat)
    requires i < |s| && s[i] == '{' && DecodeObject(s, i).Some?
    ensures CompactOf(Compact(s[i..]), DecodeObject(s, i).value)
  {
    var k := SkipSpace(s, i + 1);
    assert k < |s| && s[k] == '"' && DecodeObject(s, i) == DecodeKey(s, k + 1);
    CompactBrace(s, i, k);
    CompactKey(s, k + 1);
  }

  // ---------------------------------------------------------------------
  // Round trip
  // ---------------------------------------------------------------------

  /** Whitespace is skipped up to the first character that is not. */
  lemma {:induction false} SkipSpaceOver(s: string, i: nat, w: string)
    requires i + |w| <= |s| && s[i..i + |w|] == w && AllJsonSpace(w)
    requires i + |w| == |s| || !IsJsonSpace(s[i + |w|])
    ensures SkipSpace(s, i) == i + |w|
    decreases |w|
  {
    if w != [] {
      assert s[i] == w[0];
      assert s[i + 1..i + |w|] == w[1..];
      SkipSpaceOver(s, i + 1, w[1..]);
    }
  }

  /** A string without quotes, backslashes or control characters is read
      up to its closing quote. */
  lemma {:induction false} ReadStringOver(s: string, i: nat, name: string)
    requires i + |name| < |s| && s[i..i + |name|] == name && s[i + |name|] == '"'
    requires AllPlain(name)
    ensures ReadString(s, i) == Some((name, i + |name| + 1))
    decreases |name|
  {
    if name != [] {
      assert s[i] == name[0];
      assert s[i + 1..i + |name|] == name[1..];
      ReadStringOver(s, i + 1, name[1..]);
      assert [name[0]] + name[1..] == name;
    }
  }

  /** The decimal spelling of a `u8` is read back as a JSON number when
      nothing numeric follows it. */
  lemma ReadU8Over(s: string, i: nat, n: u8)
    requires i + |NatToString(n)| <= |s| && s[i..i + |NatToString(n)|] == NatToString(n)
    requires i + |NatToString(n)| < |s| ==> !IsDigit(s[i + |NatToString(n)|])
    requires i + |NatToString(n)| < |s| ==> s[i + |NatToString(n)|] !in ".eE"
    ensures ReadU8(s, i) == Some((n, i + |NatToString(n)|))
  {
    var d := NatToString(n);
    assert s[i..] == d + s[i + |d|..];
    DigitRunOf(d, s[i + |d|..]);
    assert s[i..][..|d|] == d;
    NatToStringValue(n);
  }

  /** Every unit variant's name is plain text. */
  lemma UnitNamePlain(r: PlayerResult)
    requires !r.Score? && !r.ScoreWithStar?
    ensures AllPlain(UnitName(r)) && AllNotSpace(UnitName(r)) && UnitVariant(UnitName(r)) == Some(r)
  {
  }

  /** The decimal spelling of a number is plain text. */
  lemma DigitsPlain(d: string)
    requires AllDigits(d)
    ensures AllPlain(d) && AllNotSpace(d)
  {
  }

  predicate AllNotSpace(s: string) {
    forall i :: 0 <= i < |s| ==> !IsJsonSpace(s[i])
  }

  /** Where the pieces of a padded JSON string lie. */
  lemma QuotedLayout(w1: string, name: string, w2: string)
    ensures var s := w1 + QuotedText(name) + w2;
      && |s| == |w1| + |name| + 2 + |w2|
      && s[..|w1|] == w1 && s[|w1|] == '"'
      && s[|w1| + 1..|w1| + 1 + |name|] == name && s[|w1| + 1 + |name|] == '"'
      && s[|w1| + |name| + 2..] == w2
  {
  }

  /** A padded string that reads as `name` decodes to the variant `name`
      names. */
  lemma DecodeQuoted(w1: string, name: string, w2: string)
    requires AllJsonSpace(w1) && AllJsonSpace(w2) && AllPlain(name)
    ensures Decode(w1 + QuotedText(name) + w2) == UnitVariant(name)
  {
    var s := w1 + QuotedText(name) + w2;
    QuotedLayout(w1, name, w2);
    SkipSpaceOver(s, 0, w1);
    ReadStringOver(s, |w1| + 1, name);
    SkipSpaceOver(s, |w1| + |name| + 2, w2);
  }

  /** Where the pieces of a padded compact JSON object lie. */
  lemma ObjectLayout(w1: string, key: string, value: string, w2: string)
    ensures var s := w1 + ObjectText(key, value) + w2;
      var c := |w1| + |key| + 3;
      && |s| == c + |value| + 2 + |w2|
      && s[..|w1|] == w1 && s[|w1|] == '{' && s[|w1| + 1] == '"'
      && s[|w1| + 2..|w1| + 2 + |key|] == key && s[|w1| + 2 + |key|] == '"'
      && s[c] == ':' && s[c + 1..c + 1 + |value|] == value
      && s[c + 1 + |value|] == '}' && s[c + 2 + |value|..] == w2
  {
  }

  /** An object's value read at `v` after the colon, then its close. */
  lemma DecodeValueOf(s: string, key: string, colon: nat, v: nat, entry: (PlayerResult, nat))
    requires colon < |s| && s[colon] == ':' && SkipSpace(s, colon + 1) == v
    requires ReadEntry(key, s, v) == Some(entry)
    requires CloseObject(s, entry.0, entry.1) == Some(entry.0)
    ensures DecodeValue(s, key, colon) == Some(entry.0)
  {
  }

  /** An object's key read after its opening quote, then its value. */
  lemma DecodeKeyOf(s: string, k: nat, key: string, end: nat, r: PlayerResult)
    requires k <= |s| && ReadString(s, k) == Some((key, end))
    requires SkipSpace(s, end) == end && DecodeValue(s, key, end) == Some(r)
    ensures DecodeKey(s, k) == Some(r)
  {
  }

  /** The key of a score's object. */
  function ScoreKey(r: PlayerResult): string
    requires r.Score? || r.ScoreWithStar?
  {
    if r.Score? then "Score" else "ScoreWithStar"
  }

  /** A score's key is plain text. */
  lemma ScoreKeyPlain(r: PlayerResult)
    requires r.Score? || r.ScoreWithStar?
    ensures AllPlain(ScoreKey(r)) && AllNotSpace(ScoreKey(r))
  {
    if r.Score? {
      assert AllPlain("Score") && AllNotSpace("Score");
    } else {
      assert AllPlain("ScoreWithStar") && AllNotSpace("ScoreWithStar");
    }
  }

  /** The value after a score's key is its points, read as a `u8`. */
  lemma ReadScoreEntry(s: string, i: nat, r: PlayerResult)
    requires r.Score? || r.ScoreWithStar?
    requires i + |NatToString(r.points)| < |s|
    requires s[i..i + |NatToString(r.points)|] == NatToString(r.points)
    requires s[i + |NatToString(r.points)|] == '}'
    ensures ReadEntry(ScoreKey(r), s, i) == Some((r, i + |NatToString(r.points)|))
  {
    ReadU8Over(s, i, r.points);
  }

  /** A text that starts with an object decodes as that object. */
  lemma DecodeAtBrace(s: string, w1: string)
    requires |w1| < |s| && s[..|w1|] == w1 && AllJsonSpace(w1) && s[|w1|] == '{'
    ensures Decode(s) == DecodeObject(s, |w1|)
  {
    SkipSpaceOver(s, 0, w1);
  }

  /** The key of an object whose brace is at `b` is read up to the colon
      after it, and the value starts right after the colon. */
  lemma ObjectKeyAt(s: string, b: nat, key: string)
    requires b + |key| + 4 < |s| && AllPlain(key)
    requires s[b + 1] == '"' && s[b + 2..b + 2 + |key|] == key && s[b + 2 + |key|] == '"'
    requires s[b + |key| + 3] == ':' && !IsJsonSpace(s[b + |key| + 4])
    ensures SkipSpace(s, b + 1) == b + 1
    ensures ReadString(s, b + 2) == Some((key, b + |key| + 3))
    ensures SkipSpace(s, b + |key| + 3) == b + |key| + 3
    ensures SkipSpace(s, b + |key| + 4) == b + |key| + 4
  {
    SkipSpaceOver(s, b + 1, []);
    ReadStringOver(s, b + 2, key);
    SkipSpaceOver(s, b + |key| + 3, []);
    SkipSpaceOver(s, b + |key| + 4, []);
  }

  /** A closing brace at `e` followed only by whitespace ends the text. */
  lemma ObjectCloseAt(s: string, e: nat, w2: string)
    requires AllJsonSpace(w2) && |s| == e + 1 + |w2|
    requires s[e] == '}' && s[e + 1..] == w2
    ensures SkipSpace(s, e) == e && AtEnd(s, e + 1)
  {
    SkipSpaceOver(s, e, []);
    assert s[e + 1..e + 1 + |w2|] == w2;
    SkipSpaceOver(s, e + 1, w2);
  }

  /** The value of a score's object: its points after the colon at `c`,
      then the closing brace and only whitespace. */
  lemma ScoreValueAt(s: string, c: nat, r: PlayerResult, d: string, w2: string)
    requires r.Score? || r.ScoreWithStar?
    requires AllJsonSpace(w2) && d == NatToString(r.points)
    requires |s| == c + |d| + 2 + |w2|
    requires s[c] == ':' && s[c + 1..c + 1 + |d|] == d && s[c + 1 + |d|] == '}' && s[c + 2 + |d|..] == w2
    ensures DecodeValue(s, ScoreKey(r), c) == Some(r)
  {
    var e := c + 1 + |d|;
    ObjectCloseAt(s, e, w2);
    ReadScoreEntry(s, c + 1, r);
    DigitsPlain(d);
    assert s[c + 1] == d[0];
    SkipSpaceOver(s, c + 1, []);
    DecodeValueOf(s, ScoreKey(r), c, c + 1, (r, e));
  }

  /** The object that starts at the brace at `i` once its key and the
      rest after the key have been read. */
  lemma DecodeObjectOf(s: string, i: nat, key: string, colon: nat, r: PlayerResult)
    requires i + 1 < |s| && SkipSpace(s, i + 1) == i + 1 && s[i + 1] == '"'
    requires ReadString(s, i + 2) == Some((key, colon)) && SkipSpace(s, colon) == colon
    requires DecodeValue(s, key, colon) == Some(r)
    ensures DecodeObject(s, i) == Some(r)
  {
    DecodeKeyOf(s, i + 2, key, colon, r);
  }

  /** An object `{"Key":n}` for a score at `b`, followed only by
      whitespace, is that score. */
  lemma ScoreObjectAt(s: string, b: nat, r: PlayerResult, d: string, w2: string)
    requires r.Score? || r.ScoreWithStar?
    requires AllJsonSpace(w2) && d == NatToString(r.points)
    requires var key := ScoreKey(r); var c := b + |key| + 3;
      && |s| == c + |d| + 2 + |w2|
      && s[b + 1] == '"' && s[b + 2..b + 2 + |key|] == key && s[b + 2 + |key|] == '"'
      && s[c] == ':' && s[c + 1..c + 1 + |d|] == d
      && s[c + 1 + |d|] == '}' && s[c + 2 + |d|..] == w2
    ensures DecodeObject(s, b) == Some(r)
  {
    var key := ScoreKey(r);
    var c := b + |key| + 3;
    ScoreKeyPlain(r);
    ObjectKeyAt(s, b, key);
    ScoreValueAt(s, c, r, d, w2);
    DecodeObjectOf(s, b, key, c, r);
  }

  /** A padded object `{"Score":n}` or `{"ScoreWithStar":n}` decodes to
      that score. */
  lemma DecodeScoreObject(w1: string, r: PlayerResult, w2: string)
    requires AllJsonSpace(w1) && AllJsonSpace(w2)
    requires r.Score? || r.ScoreWithStar?
    ensures Decode(w1 + Encode(r) + w2) == Some(r)
  {
    var d := NatToString(r.points);
    assert Encode(r) == ObjectText(ScoreKey(r), d);
    var s := w1 + ObjectText(ScoreKey(r), d) + w2;
    ObjectLayout(w1, ScoreKey(r), d, w2);
    ScoreObjectAt(s, |w1|, r, d, w2);
    DecodeAtBrace(s, w1);
  }

  /** `from_str(to_string(r)) == Some(r)` for every result, and whitespace
      around the text does not change what it decodes to. */
  lemma DecodeEncode(w1: string, r: PlayerResult, w2: string)
    requires AllJsonSpace(w1) && AllJsonSpace(w2)
    ensures Decode(w1 + Encode(r) + w2) == Some(r)
  {
    if r.Score? || r.ScoreWithStar? {
      DecodeScoreObject(w1, r, w2);
    } else {
      UnitNamePlain(r);
      DecodeQuoted(w1, UnitName(r), w2);
    }
  }

  /** Different results are stored as different text. */
  lemma EncodeInjective(a: PlayerResult, b: PlayerResult)
    requires Encode(a) == Encode(b)
    ensures a == b
  {
    assert [] + Encode(a) + [] == Encode(a);
    assert [] + Encode(b) + [] == Encode(b);
    DecodeEncode([], a, []);
    DecodeEncode([], b, []);
  }

  /** A name that is not one of the enum's variants decodes to nothing,
      however it is spelt in JSON: the scraper's `"Resign"` among them. */
  lemma UnknownNameIsNone(name: string)
    requires UnitVariant(name).None? && AllPlain(name)
    ensures Decode(QuotedText(name)) == Option.None
  {
    assert [] + QuotedText(name) + [] == QuotedText(name);
    DecodeQuoted([], name, []);
  }

  // ---------------------------------------------------------------------
  // Player
  // ---------------------------------------------------------------------

  /** The results are in ascending order of round. */
  predicate SortedByRound(scores: seq<(u8, PlayerResult)>) {
    forall i, j :: 0 <= i < j < |scores| ==> scores[i].0 <= scores[j].0
  }

  /** `x` placed into ascending scores before the first of a later round. */
  function InsertByRound(x: (u8, PlayerResult), scores: seq<(u8, PlayerResult)>): (r: seq<(u8, PlayerResult)>)
    requires SortedByRound(scores)
    ensures SortedByRound(r)
    ensures multiset(r) == multiset(scores) + multiset{x}
  {
    if scores == [] || x.0 <= scores[0].0 then [x] + scores
    else
      var rest := InsertByRound(x, scores[1..]);
      assert scores == [scores[0]] + scores[1..];
      RoundsFromPermutation(scores[0].0, rest, x, scores[1..]);
      ConsSorted(scores[0], rest);
      [scores[0]] + rest
  }

  /** A bound on the rounds of `tail` and of `x` holds for every
      rearrangement of them. */
  lemma RoundsFromPermutation(lo: u8, rest: seq<(u8, PlayerResult)>, x: (u8, PlayerResult), tail: seq<(u8, PlayerResult)>)
    requires multiset(rest) == multiset(tail) + multiset{x}
    requires lo <= x.0 && forall k :: 0 <= k < |tail| ==> lo <= tail[k].0
    ensures forall k :: 0 <= k < |rest| ==> lo <= rest[k].0
  {
    forall k | 0 <= k < |rest|
      ensures lo <= rest[k].0
    {
      assert rest[k] in multiset(rest);
      assert rest[k] == x || rest[k] in multiset(tail);
    }
  }

  /** A result no later than any of sorted scores can go in front. */
  lemma ConsSorted(h: (u8, PlayerResult), rest: seq<(u8, PlayerResult)>)
    requires SortedByRound(rest) && forall k :: 0 <= k < |rest| ==> h.0 <= rest[k].0
    ensures SortedByRound([h] + rest)
  {
    var r := [h] + rest;
    forall i, j | 0 <= i < j < |r|
      ensures r[i].0 <= r[j].0
    {
      assert r[j] == rest[j - 1];
      if i > 0 {
        assert r[i] == rest[i - 1];
      }
    }
  }

  /** The scores sorted by round: in ascending order and a permutation of
      the input. */
  function SortByRound(scores: seq<(u8, PlayerResult)>): (r: seq<(u8, PlayerResult)>)
    ensures SortedByRound(r)
    ensures multiset(r) == multiset(scores)
  {
    if scores == [] then []
    else
      assert scores == [scores[0]] + scores[1..];
      InsertByRound(scores[0], SortByRound(scores[1..]))
  }

  /** `Player::new`: the name, the surname, and the scores sorted by round. */
  function NewPlayer(name: string, surname: string, scores: seq<(u8, PlayerResult)>): (p: Player)
    ensures p.name == name && p.surname == surname
    ensures SortedByRound(p.scores) && multiset(p.scores) == multiset(scores)
  {
    Player(name, surname, SortByRound(scores))
  }

  /** Scores already in order are kept as they are. */
  lemma {:induction false} SortSorted(scores: seq<(u8, PlayerResult)>)
    requires SortedByRound(scores)
    ensures SortByRound(scores) == scores
  {
    if scores != [] {
      SortSorted(scores[1..]);
    }
  }
}
