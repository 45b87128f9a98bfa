/**
 * The NMEA 0183 text handling of the GPS code: the checksum and framing of the GGA sentence that
 * `Utils::gga_data_to_string` prints, its hemisphere letters and degree fields, and the search
 * `extract_gga_sentence` performs with the pattern `\$.{0,2}GGA.{0,200}\r\n`, stated directly
 * as a predicate on positions in the text.
 */
module Nmea {
  import opened Wrappers

  // ---------------------------------------------------------------------------------------
  // Checksum and framing.

  /** `character as u8`: the low eight bits of the code point. */
  function LowByte(c: char): bv8 {
    ((c as int) % 256) as bv8
  }

  /** The XOR of the low bytes of all characters. */
  function XorAll(s: string): bv8
    decreases |s|
  {
    if |s| == 0 then 0 else XorAll(s[..|s| - 1]) ^ LowByte(s[|s| - 1])
  }

  /** `chars().skip(1)`: everything after the leading `$`. */
  function AfterFirst(s: string): string {
    if |s| == 0 then [] else s[1..]
  }

  /** The XOR over a concatenation combines the XORs of the parts. */
  lemma {:induction false} XorAllAppend(a: string, b: string)
    ensures XorAll(a + b) == XorAll(a) ^ XorAll(b)
    decreases |b|
  {
    if |b| == 0 {
      assert a + b == a;
    } else {
      assert (a + b)[..|a + b| - 1] == a + b[..|b| - 1];
      XorAllAppend(a, b[..|b| - 1]);
    }
  }

  /** `checksum`, the local function of `gga_data_to_string`: XOR over the characters after the first. */
  method Checksum(sentence: string) returns (checksum: bv8)
    ensures checksum == XorAll(AfterFirst(sentence))
  {
    checksum := 0;
    var rest := AfterFirst(sentence);
    var i := 0;
    while i < |rest|
      invariant 0 <= i <= |rest| && checksum == XorAll(rest[..i])
    {
      assert rest[..i + 1][..i] == rest[..i];
      checksum := checksum ^ LowByte(rest[i]);
      i := i + 1;
    }
    assert rest[..i] == rest;
  }

  /** `{:X}` of one hexadecimal digit. */
  function HexDigit(d: nat): (c: char)
    requires d < 16
  {
    if d < 10 then ('0' as int + d) as char else ('A' as int + d - 10) as char
  }

  predicate IsHexDigit(c: char) {
    '0' <= c <= '9' || 'A' <= c <= 'F'
  }

  function HexValue(c: char): (d: nat)
    requires IsHexDigit(c)
    ensures d < 16
  {
    if c <= '9' then c as int - '0' as int else c as int - 'A' as int + 10
  }

  lemma HexDigitValue(d: nat)
    requires d < 16
    ensures IsHexDigit(HexDigit(d)) && HexValue(HexDigit(d)) == d
  {
  }

  /** `{:02X}` of a byte: two upper-case digits, the high nibble first. */
  function Hex2(b: bv8): (h: string)
    ensures |h| == 2 && IsHexDigit(h[0]) && IsHexDigit(h[1])
    ensures HexValue(h[0]) * 16 + HexValue(h[1]) == b as int
  {
    HexDigitValue(b as int / 16);
    HexDigitValue(b as int % 16);
    [HexDigit(b as int / 16), HexDigit(b as int % 16)]
  }

  /** The complete sentence: the body, `*`, the checksum of the body in hexadecimal and CR LF. */
  function Framed(body: string): string {
    body + "*" + Hex2(XorAll(AfterFirst(body))) + "\r\n"
  }

  /** Lines 77 to 79 of `gga_data_to_string`, given the formatted body. */
  method FrameSentence(body: string) returns (sentence: string)
    ensures sentence == Framed(body)
  {
    var checksum := Checksum(body);
    sentence := body + "*" + Hex2(checksum) + "\r\n";
  }

  /**
   * What a receiver checks: the line ends in CR LF, `*` and two hexadecimal digits stand before
   * it, and their value is the XOR of the characters between the first one and the `*`.
   */
  predicate ChecksumValid(s: string) {
    |s| >= 5 && s[|s| - 2] == '\r' && s[|s| - 1] == '\n' && s[|s| - 5] == '*' &&
    IsHexDigit(s[|s| - 4]) && IsHexDigit(s[|s| - 3]) &&
    HexValue(s[|s| - 4]) * 16 + HexValue(s[|s| - 3]) == XorAll(AfterFirst(s[..|s| - 5])) as int
  }

  /** A line passes the receiver's check exactly when it is the framing of its own body. */
  lemma FramedValid(s: string)
    ensures |s| >= 5 ==> (ChecksumValid(s) <==> s == Framed(s[..|s| - 5]))
  {
    if |s| >= 5 {
      var body := s[..|s| - 5];
      var f := Framed(body);
      var h := Hex2(XorAll(AfterFirst(body)));
      assert |f| == |s|;
      assert f[..|s| - 5] == body;
      assert f[|s| - 5] == '*' && f[|s| - 4] == h[0] && f[|s| - 3] == h[1];
      assert f[|s| - 2] == '\r' && f[|s| - 1] == '\n';
      if ChecksumValid(s) {
        HexPairUnique(s[|s| - 4], s[|s| - 3], h[0], h[1]);
        assert s == f;
      }
    }
  }

  /** Two upper-case digit pairs with the same value are the same pair. */
  lemma HexPairUnique(a: char, b: char, c: char, d: char)
    requires IsHexDigit(a) && IsHexDigit(b) && IsHexDigit(c) && IsHexDigit(d)
    requires HexValue(a) * 16 + HexValue(b) == HexValue(c) * 16 + HexValue(d)
    ensures a == c && b == d
  {
    assert HexValue(a) == HexValue(c);
  }

  /** Every framed sentence passes the check, and its body can be read off again. */
  lemma FramedRoundTrip(body: string)
    ensures var s := Framed(body); |s| == |body| + 5 && ChecksumValid(s) && s[..|s| - 5] == body
  {
    var s := Framed(body);
    assert s[..|s| - 5] == body;
    FramedValid(s);
  }

  // ---------------------------------------------------------------------------------------
  // Hemispheres and degree fields.

  function Abs(x: real): (r: real)
    ensures r >= 0.0 && (r == x || r == -x)
  {
    if x >= 0.0 then x else -x
  }

  function LatitudeHemisphere(lat: real): char {
    if lat >= 0.0 then 'N' else 'S'
  }

  function LongitudeHemisphere(lon: real): char {
    if lon >= 0.0 then 'E' else 'W'
  }

  /** `x.abs().trunc() as u32`: the whole degrees. */
  function DegreeField(x: real): (d: nat)
    ensures d as real <= Abs(x) < d as real + 1.0
  {
    Abs(x).Floor
  }

  /**
   * The letter and the degree field together give the coordinate truncated toward zero: `N` or
   * `E` exactly for non-negative values, `S` or `W` for negative ones.
   */
  lemma HemisphereDegrees(lat: real, lon: real)
    ensures LatitudeHemisphere(lat) == 'N' <==> lat >= 0.0
    ensures LatitudeHemisphere(lat) == 'S' <==> lat < 0.0
    ensures LongitudeHemisphere(lon) == 'E' <==> lon >= 0.0
    ensures LongitudeHemisphere(lon) == 'W' <==> lon < 0.0
    ensures var d := DegreeField(lat) as real;
      if LatitudeHemisphere(lat) == 'N' then lat - 1.0 < d <= lat else lat <= -d < lat + 1.0
  {
  }

  // ---------------------------------------------------------------------------------------
  // Finding the GGA sentence.

  /** `GGA` starts at position `j`. */
  predicate GgaAt(s: string, j: int) {
    0 <= j && j + 3 <= |s| && s[j] == 'G' && s[j + 1] == 'G' && s[j + 2] == 'A'
  }

  /** `GGA` at `j`, then at most 200 characters before the CR at `e - 2`. */
  predicate GgaFits(s: string, j: int, e: int) {
    GgaAt(s, j) && j + 3 <= e - 2 && e - 2 - (j + 3) <= 200
  }

  /**
   * `s[i..e]` matches `\$.{0,2}GGA.{0,200}\r\n`: `$`, at most two characters, `GGA`, at most 200
   * characters, CR LF, where no character before the final LF is a newline.
   */
  predicate IsMatch(s: string, i: int, e: int) {
    0 <= i && i + 6 <= e <= |s| && s[i] == '$' && s[e - 2] == '\r' && s[e - 1] == '\n' &&
    (GgaFits(s, i + 1, e) || GgaFits(s, i + 2, e) || GgaFits(s, i + 3, e)) &&
    forall t :: i < t < e - 1 ==> s[t] != '\n'
  }

  /** The first newline at or after `i`. */
  function FirstNewline(s: string, i: nat): (r: Option<nat>)
    requires i <= |s|
    decreases |s| - i
    ensures r.Some? ==> i <= r.value < |s| && s[r.value] == '\n' && forall t :: i <= t < r.value ==> s[t] != '\n'
    ensures r.None? ==> forall t :: i <= t < |s| ==> s[t] != '\n'
  {
    if i == |s| then None else if s[i] == '\n' then Some(i) else FirstNewline(s, i + 1)
  }

  /** The end of the match starting at `i`, if one does: it can only run to the first newline. */
  function MatchEnd(s: string, i: nat): (r: Option<nat>)
    requires i < |s|
  {
    if s[i] != '$' then None
    else
      match FirstNewline(s, i + 1)
      case None => None
      case Some(n) =>
        if s[n - 1] == '\r' && (GgaFits(s, i + 1, n + 1) || GgaFits(s, i + 2, n + 1) || GgaFits(s, i + 3, n + 1))
        then Some(n + 1) else None
  }

  /** `MatchEnd` finds the match at `i` exactly when there is one, and it is the only one. */
  lemma MatchEndSpec(s: string, i: nat)
    requires i < |s|
    ensures MatchEnd(s, i).Some? ==> IsMatch(s, i, MatchEnd(s, i).value)
    ensures forall e :: IsMatch(s, i, e) ==> MatchEnd(s, i) == Some(e)
  {
    forall e | IsMatch(s, i, e)
      ensures MatchEnd(s, i) == Some(e)
    {
      var r := FirstNewline(s, i + 1);
      assert r.Some? && r.value == e - 1;
    }
  }

  /** The leftmost match at or after `from`, as start and end positions. */
  function FindMatch(s: string, from: nat): (r: Option<(nat, nat)>)
    decreases |s| - from
    ensures r.Some? ==> from <= r.value.0 && IsMatch(s, r.value.0, r.value.1)
    ensures r.Some? ==> forall i, e :: from <= i < r.value.0 ==> !IsMatch(s, i, e)
    ensures r.None? ==> forall i, e :: from <= i ==> !IsMatch(s, i, e)
  {
    if from >= |s| then None
    else
      MatchEndSpec(s, from);
      match MatchEnd(s, from)
      case Some(e) => Some((from, e))
      case None => FindMatch(s, from + 1)
  }

  /** `extract_gga_sentence`: the leftmost match of the GGA pattern. */
  function ExtractGga(s: string): (r: Option<string>)
    ensures r.Some? <==> exists i, e :: IsMatch(s, i, e)
    ensures r.Some? ==> exists i, e :: IsMatch(s, i, e) && r.value == s[i..e] &&
                                     forall i', e' :: 0 <= i' < i ==> !IsMatch(s, i', e')
  {
    match FindMatch(s, 0)
    case None => None
    case Some((i, e)) => Some(s[i..e])
  }

  /**
   * The extracted sentence starts with `$`, has `GGA` one to three characters later, ends with
   * its only newline, right after a CR, and holds at most 208 characters.
   */
  lemma ExtractedShape(s: string)
    requires ExtractGga(s).Some?
    ensures var g := ExtractGga(s).value;
      && 6 <= |g| <= 208 && g[0] == '$' && g[|g| - 2] == '\r' && g[|g| - 1] == '\n'
      && (GgaAt(g, 1) || GgaAt(g, 2) || GgaAt(g, 3))
      && forall t :: 0 <= t < |g| - 1 ==> g[t] != '\n'
  {
    var g := ExtractGga(s).value;
    var i, e :| IsMatch(s, i, e) && g == s[i..e];
    assert forall t :: 0 <= t < |g| ==> g[t] == s[i + t];
    assert GgaAt(s, i + 1) ==> GgaAt(g, 1);
    assert GgaAt(s, i + 2) ==> GgaAt(g, 2);
    assert GgaAt(s, i + 3) ==> GgaAt(g, 3);
  }

  /** Text without `GGA` anywhere, such as an RMC sentence or plain words, yields nothing. */
  lemma NoGgaNoSentence(s: string)
    requires forall j :: !GgaAt(s, j)
    ensures ExtractGga(s) == None
  {
  }

  /** A GGA line on its own. */
  predicate IsGgaLine(line: string) {
    IsMatch(line, 0, |line|)
  }

  /**
   * A GGA line is found after any complete lines without `GGA` (an RMC line, say), whatever
   * follows it.
   */
  lemma GgaLineFound(before: string, line: string, after: string)
    requires IsGgaLine(line)
    requires |before| == 0 || before[|before| - 1] == '\n'
    requires forall j :: !GgaAt(before, j)
    ensures ExtractGga(before + line + after) == Some(line)
  {
    var s := before + line + after;
    var b := |before|;
    ShiftedMatch(before, line, after);
    NoMatchBefore(before, line + after);
    assert s == before + (line + after);
    var r := FindMatch(s, 0);
    assert r.Some? && r.value.0 == b;
    MatchEndSpec(s, b);
    assert s[b..b + |line|] == line;
  }

  /** A match of a whole line is still a match inside a longer text. */
  lemma ShiftedMatch(before: string, line: string, after: string)
    requires IsGgaLine(line)
    ensures IsMatch(before + line + after, |before|, |before| + |line|)
  {
    var s := before + line + after;
    var b := |before|;
    assert forall t :: 0 <= t < |line| ==> s[b + t] == line[t];
    assert GgaAt(line, 1) ==> GgaAt(s, b + 1);
    assert GgaAt(line, 2) ==> GgaAt(s, b + 2);
    assert GgaAt(line, 3) ==> GgaAt(s, b + 3);
    forall t | b < t < b + |line| - 1
      ensures s[t] != '\n'
    {
      assert s[t] == line[t - b];
    }
  }

  /** No match starts inside complete lines without `GGA`. */
  lemma NoMatchBefore(before: string, rest: string)
    requires |before| == 0 || before[|before| - 1] == '\n'
    requires forall j :: !GgaAt(before, j)
    ensures forall i, e :: 0 <= i < |before| ==> !IsMatch(before + rest, i, e)
  {
    var s := before + rest;
    var b := |before|;
    forall i, e | 0 <= i < b && IsMatch(s, i, e)
      ensures false
    {
      assert s[b - 1] == '\n';
      assert e <= b;
      var j := if GgaFits(s, i + 1, e) then i + 1 else if GgaFits(s, i + 2, e) then i + 2 else i + 3;
      GgaInPrefix(before, rest, j);
      assert false;
    }
  }

  lemma GgaInPrefix(before: string, rest: string, j: int)
    requires 0 <= j && j + 3 <= |before| && GgaAt(before + rest, j)
    ensures GgaAt(before, j)
  {
    var s := before + rest;
    assert s[j] == before[j] && s[j + 1] == before[j + 1] && s[j + 2] == before[j + 2];
  }
}
