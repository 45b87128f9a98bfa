/**
 * The HTTP request `NtripClient::create_request` addresses to an NTRIP caster: the URL
 * `http://addr:port/mountpoint`, a `Basic` credential per section 2 of RFC 7617 whose user-pass
 * is encoded with the base64 alphabet and padding of section 4 of RFC 4648, and the headers.
 * The request is described as data; sending it is network I/O.
 */
module Ntrip {
  import opened Wrappers
  import opened Decimal
  import opened Bytes
  import Nmea


  // ---------------------------------------------------------------------------------------
  // UTF-8, the bytes of a Rust `String`.

  function Utf8Char(c: char): (bs: seq<u8>)
    ensures 1 <= |bs| <= 4
    ensures (c as int) < 128 ==> bs == [c as int]
  {
    var v := c as int;
    if v < 0x80 then [v]
    else if v < 0x800 then [0xC0 + v / 64, 0x80 + v % 64]
    else if v < 0x10000 then [0xE0 + v / 4096, 0x80 + (v / 64) % 64, 0x80 + v % 64]
    else [0xF0 + (v / 262144) % 8, 0x80 + (v / 4096) % 64, 0x80 + (v / 64) % 64, 0x80 + v % 64]
  }

  function Utf8(s: string): (bs: seq<u8>)
    ensures |s| <= |bs| <= 4 * |s|
    decreases |s|
  {
    if |s| == 0 then [] else Utf8Char(s[0]) + Utf8(s[1..])
  }

  lemma {:induction false} Utf8Append(a: string, b: string)
    ensures Utf8(a + b) == Utf8(a) + Utf8(b)
    decreases |a|
  {
    if |a| > 0 {
      assert (a + b)[1..] == a[1..] + b;
      Utf8Append(a[1..], b);
    } else {
      assert a + b == b;
    }
  }

  // ---------------------------------------------------------------------------------------
  // Base64, section 4 of RFC 4648.

  /** The character of a six-bit value in the base64 alphabet (Table 1 of RFC 4648). */
  function Alphabet(v: nat): (c: char)
    requires v < 64
  {
    if v < 26 then ('A' as int + v) as char
    else if v < 52 then ('a' as int + v - 26) as char
    else if v < 62 then ('0' as int + v - 52) as char
    else if v == 62 then '+' else '/'
  }

  predicate InAlphabet(c: char) {
    'A' <= c <= 'Z' || 'a' <= c <= 'z' || '0' <= c <= '9' || c == '+' || c == '/'
  }

  function AlphabetValue(c: char): (v: nat)
    requires InAlphabet(c)
    ensures v < 64
  {
    if 'A' <= c <= 'Z' then c as int - 'A' as int
    else if 'a' <= c <= 'z' then c as int - 'a' as int + 26
    else if '0' <= c <= '9' then c as int - '0' as int + 52
    else if c == '+' then 62 else 63
  }

  lemma AlphabetInverse(v: nat)
    requires v < 64
    ensures InAlphabet(Alphabet(v)) && AlphabetValue(Alphabet(v)) == v
  {
  }

  /** The four characters of a complete group of three bytes. */
  function EncodeGroup(b0: u8, b1: u8, b2: u8): (s: string)
    ensures |s| == 4
  {
    [Alphabet(b0 / 4), Alphabet((b0 % 4) * 16 + b1 / 16), Alphabet((b1 % 16) * 4 + b2 / 64), Alphabet(b2 % 64)]
  }

  /** `STANDARD.encode`: groups of three bytes become four characters; a short last group is padded with `=`. */
  function Base64Encode(bs: seq<u8>): (s: string)
    ensures |bs| > 0 ==> 4 <= |s|
    decreases |bs|
  {
    if |bs| == 0 then ""
    else if |bs| == 1 then
      [Alphabet(bs[0] / 4), Alphabet((bs[0] % 4) * 16), '=', '=']
    else if |bs| == 2 then
      [Alphabet(bs[0] / 4), Alphabet((bs[0] % 4) * 16 + bs[1] / 16), Alphabet((bs[1] % 16) * 4), '=']
    else
      EncodeGroup(bs[0], bs[1], bs[2]) + Base64Encode(bs[3..])
  }

  /** Every started group of three bytes takes four characters. */
  lemma {:induction false} Base64Length(bs: seq<u8>)
    ensures |Base64Encode(bs)| == 4 * ((|bs| + 2) / 3)
    decreases |bs|
  {
    if |bs| > 3 {
      Base64Length(bs[3..]);
      assert (|bs| + 2) / 3 == (|bs[3..]| + 2) / 3 + 1;
    }
  }

  /** The output of the encoder is alphabet characters, with `=` only as padding in the last group. */
  lemma {:induction false} Base64Alphabet(bs: seq<u8>)
    ensures var s := Base64Encode(bs);
      forall k :: 0 <= k < |s| ==> InAlphabet(s[k]) || (s[k] == '=' && |s| - 2 <= k)
    decreases |bs|
  {
    if |bs| > 3 {
      Base64Alphabet(bs[3..]);
      var g := EncodeGroup(bs[0], bs[1], bs[2]);
      AlphabetInverse(bs[0] / 4);
      AlphabetInverse((bs[0] % 4) * 16 + bs[1] / 16);
      AlphabetInverse((bs[1] % 16) * 4 + bs[2] / 64);
      AlphabetInverse(bs[2] % 64);
      var s := Base64Encode(bs);
      assert s == g + Base64Encode(bs[3..]);
      forall k | 0 <= k < |s|
        ensures InAlphabet(s[k]) || (s[k] == '=' && |s| - 2 <= k)
      {
        if k >= 4 {
          assert s[k] == Base64Encode(bs[3..])[k - 4];
        }
      }
    } else if |bs| > 0 {
      AlphabetInverse(bs[0] / 4);
      if |bs| == 1 {
        AlphabetInverse((bs[0] % 4) * 16);
      } else {
        AlphabetInverse((bs[0] % 4) * 16 + bs[1] / 16);
        if |bs| == 2 {
          AlphabetInverse((bs[1] % 16) * 4);
        } else {
          AlphabetInverse((bs[1] % 16) * 4 + bs[2] / 64);
          AlphabetInverse(bs[2] % 64);
        }
      }
    }
  }

  /** Four alphabet characters as three bytes. */
  function DecodeGroup(s: string): (r: Option<seq<u8>>)
    requires |s| == 4
    ensures r.Some? ==> |r.value| == 3
  {
    if InAlphabet(s[0]) && InAlphabet(s[1]) && InAlphabet(s[2]) && InAlphabet(s[3]) then
      var v0, v1, v2, v3 := AlphabetValue(s[0]), AlphabetValue(s[1]), AlphabetValue(s[2]), AlphabetValue(s[3]);
      Some([v0 * 4 + v1 / 16, (v1 % 16) * 16 + v2 / 4, (v2 % 4) * 64 + v3])
    else None
  }

  /** The last group: complete, or one or two bytes padded with `=`, whose unused bits must be zero. */
  function DecodeLast(s: string): (r: Option<seq<u8>>)
    requires |s| == 4
  {
    if !InAlphabet(s[0]) || !InAlphabet(s[1]) then None
    else
      var v0, v1 := AlphabetValue(s[0]), AlphabetValue(s[1]);
      if s[2] == '=' && s[3] == '=' then
        if v1 % 16 == 0 then Some([v0 * 4 + v1 / 16]) else None
      else if InAlphabet(s[2]) && s[3] == '=' then
        var v2 := AlphabetValue(s[2]);
        if v2 % 4 == 0 then Some([v0 * 4 + v1 / 16, (v1 % 16) * 16 + v2 / 4]) else None
      else DecodeGroup(s)
  }

  /** The decoder of section 4 of RFC 4648, accepting only canonical padded text. */
  function Base64Decode(s: string): (r: Option<seq<u8>>)
    decreases |s|
  {
    if |s| == 0 then Some([])
    else if |s| < 4 then None
    else if |s| == 4 then DecodeLast(s)
    else
      match DecodeGroup(s[..4])
      case None => None
      case Some(group) =>
        match Base64Decode(s[4..])
        case None => None
        case Some(rest) => Some(group + rest)
  }

  /** Decoding the encoding gives the bytes back. */
  lemma {:induction false} Base64RoundTrip(bs: seq<u8>)
    ensures Base64Decode(Base64Encode(bs)) == Some(bs)
    decreases |bs|
  {
    if |bs| == 1 {
      assert bs == [bs[0]];
      Base64One(bs[0]);
    } else if |bs| == 2 {
      assert bs == [bs[0], bs[1]];
      Base64Two(bs[0], bs[1]);
    } else if |bs| == 3 {
      assert bs == [bs[0], bs[1], bs[2]];
      GroupRoundTrip(bs[0], bs[1], bs[2]);
      LastGroup(bs[0], bs[1], bs[2]);
    } else if |bs| > 3 {
      Base64RoundTrip(bs[3..]);
      GroupRoundTrip(bs[0], bs[1], bs[2]);
      GroupStep(bs);
    }
  }

  lemma GroupStep(bs: seq<u8>)
    requires |bs| > 3
    requires Base64Decode(Base64Encode(bs[3..])) == Some(bs[3..])
    requires DecodeGroup(EncodeGroup(bs[0], bs[1], bs[2])) == Some([bs[0], bs[1], bs[2]])
    ensures Base64Decode(Base64Encode(bs)) == Some(bs)
  {
    var t := Base64Encode(bs[3..]);
    var g := EncodeGroup(bs[0], bs[1], bs[2]);
    assert Base64Encode(bs) == g + t;
    DecodeConcat(g, t, [bs[0], bs[1], bs[2]], bs[3..]);
    ConsThree(bs);
  }

  lemma ConsThree<T>(s: seq<T>)
    requires |s| >= 3
    ensures [s[0], s[1], s[2]] + s[3..] == s
  {
  }

  /** A complete group followed by more text decodes to the group's bytes followed by the rest's. */
  lemma DecodeConcat(g: string, t: string, gb: seq<u8>, tb: seq<u8>)
    requires |g| == 4 && |t| > 0
    requires DecodeGroup(g) == Some(gb) && Base64Decode(t) == Some(tb)
    ensures Base64Decode(g + t) == Some(gb + tb)
  {
    var s := g + t;
    assert s[..4] == g;
    assert s[4..] == t;
  }

  /** `hi` and `lo` are recovered from `hi * 16 + lo` when `lo < 16`. */
  lemma Mix16(hi: nat, lo: nat)
    requires lo < 16
    ensures (hi * 16 + lo) / 16 == hi && (hi * 16 + lo) % 16 == lo
  {
  }

  /** `hi` and `lo` are recovered from `hi * 4 + lo` when `lo < 4`. */
  lemma Mix4(hi: nat, lo: nat)
    requires lo < 4
    ensures (hi * 4 + lo) / 4 == hi && (hi * 4 + lo) % 4 == lo
  {
  }

  lemma Base64One(b0: u8)
    ensures Base64Decode(Base64Encode([b0])) == Some([b0])
  {
    AlphabetInverse(b0 / 4);
    var v1 := (b0 % 4) * 16;
    AlphabetInverse(v1);
    Mix16(b0 % 4, 0);
  }

  lemma Base64Two(b0: u8, b1: u8)
    ensures Base64Decode(Base64Encode([b0, b1])) == Some([b0, b1])
  {
    var v1 := (b0 % 4) * 16 + b1 / 16;
    var v2 := (b1 % 16) * 4;
    AlphabetInverse(b0 / 4);
    AlphabetInverse(v1);
    AlphabetInverse(v2);
    Mix16(b0 % 4, b1 / 16);
    Mix4(b1 % 16, 0);
  }

  lemma GroupRoundTrip(b0: u8, b1: u8, b2: u8)
    ensures DecodeGroup(EncodeGroup(b0, b1, b2)) == Some([b0, b1, b2])
  {
    var v0, v1, v2, v3 := b0 / 4, (b0 % 4) * 16 + b1 / 16, (b1 % 16) * 4 + b2 / 64, b2 % 64;
    AlphabetInverse(v0);
    AlphabetInverse(v1);
    AlphabetInverse(v2);
    AlphabetInverse(v3);
    GroupBits(b0, b1, b2);
    var s := EncodeGroup(b0, b1, b2);
    assert s == [Alphabet(v0), Alphabet(v1), Alphabet(v2), Alphabet(v3)];
    assert [v0 * 4 + v1 / 16, (v1 % 16) * 16 + v2 / 4, (v2 % 4) * 64 + v3] == [b0, b1, b2];
  }

  /** The four six-bit values of a group put back together give its three bytes. */
  lemma GroupBits(b0: u8, b1: u8, b2: u8)
    ensures var v0, v1, v2, v3 := b0 / 4, (b0 % 4) * 16 + b1 / 16, (b1 % 16) * 4 + b2 / 64, b2 % 64;
      && v0 * 4 + v1 / 16 == b0 && (v1 % 16) * 16 + v2 / 4 == b1 && (v2 % 4) * 64 + v3 == b2
  {
    Mix16(b0 % 4, b1 / 16);
    Mix4(b1 % 16, b2 / 64);
  }

  lemma LastGroup(b0: u8, b1: u8, b2: u8)
    requires DecodeGroup(EncodeGroup(b0, b1, b2)) == Some([b0, b1, b2])
    ensures DecodeLast(EncodeGroup(b0, b1, b2)) == Some([b0, b1, b2])
  {
    var s := EncodeGroup(b0, b1, b2);
    AlphabetInverse(b2 % 64);
    assert InAlphabet(s[3]);
  }

  // ---------------------------------------------------------------------------------------
  // The request.

  datatype NtripClientSettings = NtripClientSettings(
    addr: string, port: u16, mountpoint: string, username: string, password: string, initialGgaSentence: string)

  datatype Request = Request(url: string, headers: seq<(string, string)>)

  /** `str::replace(from, "")` for a single character. */
  function RemoveChar(s: string, c: char): (r: string)
    ensures |r| <= |s| && c !in r
    decreases |s|
  {
    if |s| == 0 then "" else (if s[0] == c then "" else [s[0]]) + RemoveChar(s[1..], c)
  }

  lemma {:induction false} RemoveCharAppend(a: string, b: string, c: char)
    ensures RemoveChar(a + b, c) == RemoveChar(a, c) + RemoveChar(b, c)
    decreases |a|
  {
    if |a| > 0 {
      assert (a + b)[1..] == a[1..] + b;
      RemoveCharAppend(a[1..], b, c);
    } else {
      assert a + b == b;
    }
  }

  lemma {:induction false} RemoveCharAbsent(s: string, c: char)
    requires c !in s
    ensures RemoveChar(s, c) == s
    decreases |s|
  {
    if |s| > 0 {
      RemoveCharAbsent(s[1..], c);
      assert [s[0]] + s[1..] == s;
    }
  }

  /** The GGA header: the sentence with every CR and LF removed. */
  function StripLineBreaks(s: string): (r: string)
    ensures '\r' !in r && '\n' !in r
  {
    var noCr := RemoveChar(s, '\r');
    RemoveCharKeeps(noCr, '\n', '\r');
    RemoveChar(noCr, '\n')
  }

  lemma {:induction false} RemoveCharKeeps(s: string, c: char, d: char)
    requires d !in s
    ensures d !in RemoveChar(s, c)
    decreases |s|
  {
    if |s| > 0 {
      RemoveCharKeeps(s[1..], c, d);
    }
  }

  lemma StripAppend(a: string, b: string)
    ensures StripLineBreaks(a + b) == StripLineBreaks(a) + StripLineBreaks(b)
  {
    RemoveCharAppend(a, b, '\r');
    RemoveCharAppend(RemoveChar(a, '\r'), RemoveChar(b, '\r'), '\n');
  }

  lemma StripAbsent(s: string)
    requires '\r' !in s && '\n' !in s
    ensures StripLineBreaks(s) == s
  {
    RemoveCharAbsent(s, '\r');
    RemoveCharAbsent(s, '\n');
  }

  /** A framed sentence whose body has no line breaks loses exactly its final CR LF. */
  lemma StripFramed(body: string)
    requires '\r' !in body && '\n' !in body
    ensures StripLineBreaks(Nmea.Framed(body)) == body + "*" + Nmea.Hex2(Nmea.XorAll(Nmea.AfterFirst(body)))
  {
    var h := Nmea.Hex2(Nmea.XorAll(Nmea.AfterFirst(body)));
    var line := body + "*" + h;
    assert Nmea.IsHexDigit(h[0]) && Nmea.IsHexDigit(h[1]);
    assert '\r' !in line && '\n' !in line by {
      assert line == body + ['*', h[0], h[1]];
    }
    assert Nmea.Framed(body) == line + "\r\n";
    StripAppend(line, "\r\n");
    StripAbsent(line);
    assert StripLineBreaks("\r\n") == "";
  }

  /** `http://{addr}:{port}/{mountpoint}`. */
  function Url(settings: NtripClientSettings): string {
    "http://" + settings.addr + ":" + NatToString(settings.port) + "/" + settings.mountpoint
  }

  /** The `Authorization` value: `Basic` and the base64 encoding of `username:password`. */
  function Credentials(settings: NtripClientSettings): string {
    "Basic " + Base64Encode(Utf8(settings.username + ":" + settings.password))
  }

  /** `create_request`: a GET of the URL with the five headers, in the order they are added. */
  function CreateRequest(settings: NtripClientSettings): (r: Request)
    ensures |r.headers| == 5
  {
    Request(Url(settings), [
      ("User-Agent", settings.username),
      ("Host", settings.addr),
      ("Ntrip-Version", "Ntrip/2.0"),
      ("Ntrip-GGA", StripLineBreaks(settings.initialGgaSentence)),
      ("Authorization", Credentials(settings))])
  }

  /** The caster recovers user and password: decoding the credential gives the bytes of `username:password`. */
  lemma CredentialsDecode(settings: NtripClientSettings)
    ensures var c := Credentials(settings);
      c[..6] == "Basic " && Base64Decode(c[6..]) == Some(Utf8(settings.username + ":" + settings.password))
  {
    var user := Utf8(settings.username + ":" + settings.password);
    Base64RoundTrip(user);
    var c := Credentials(settings);
    assert c[6..] == Base64Encode(user);
  }

  /** For ASCII names the credential bytes are the user, a colon and the password. */
  lemma CredentialsAscii(settings: NtripClientSettings)
    requires forall k :: 0 <= k < |settings.username| ==> (settings.username[k] as int) < 128
    ensures Utf8(settings.username + ":" + settings.password) ==
      Utf8(settings.username) + [':' as int] + Utf8(settings.password)
  {
    Utf8Append(settings.username + ":", settings.password);
    Utf8Append(settings.username, ":");
  }

  /** The position of the first `c` at or after `from`. */
  function IndexOf(s: string, c: char, from: nat): (r: Option<nat>)
    requires from <= |s|
    decreases |s| - from
    ensures r.Some? ==> from <= r.value < |s| && s[r.value] == c && c !in s[from..r.value]
    ensures r.None? ==> c !in s[from..]
  {
    if from == |s| then None
    else if s[from] == c then Some(from)
    else
      var r := IndexOf(s, c, from + 1);
      assert r.Some? ==> s[from..r.value] == [s[from]] + s[from + 1..r.value];
      assert s[from..] == [s[from]] + s[from + 1..];
      r
  }

  /** Reading a URL of this form: the host up to the first colon, the port up to the next slash, the rest. */
  function ParseUrl(url: string): Option<(string, nat, string)> {
    if |url| < 7 || url[..7] != "http://" then None
    else
      match IndexOf(url, ':', 7)
      case None => None
      case Some(colon) =>
        match IndexOf(url, '/', colon + 1)
        case None => None
        case Some(slash) =>
          var digits := url[colon + 1..slash];
          if AllDigits(digits) then Some((url[7..colon], DecimalValue(digits), url[slash + 1..])) else None
  }

  /** The first `c` from `from` on is at `at` when `at` holds one and nothing before it does. */
  lemma IndexOfAt(s: string, c: char, from: nat, at: nat)
    requires from <= at < |s| && s[at] == c && c !in s[from..at]
    ensures IndexOf(s, c, from) == Some(at)
  {
    assert s[from..][at - from] == c;
  }

  /** Host, port and mountpoint can be read back from the URL when the host has no colon. */
  lemma UrlRoundTrip(settings: NtripClientSettings)
    requires ':' !in settings.addr
    ensures ParseUrl(Url(settings)) == Some((settings.addr, settings.port as nat, settings.mountpoint))
  {
    var url := Url(settings);
    var port := NatToString(settings.port);
    var colon := 7 + |settings.addr|;
    var slash := colon + 1 + |port|;
    assert url[..7] == "http://";
    assert url[7..colon] == settings.addr;
    assert url[colon] == ':';
    IndexOfAt(url, ':', 7, colon);
    assert url[colon + 1..slash] == port;
    assert '/' !in port by {
      assert forall k :: 0 <= k < |port| ==> IsDigit(port[k]);
    }
    assert url[slash] == '/';
    IndexOfAt(url, '/', colon + 1, slash);
    assert url[slash + 1..] == settings.mountpoint;
    NatToStringValue(settings.port);
  }

  /**
   * What a caster reads from the request: the address, port and mountpoint from the URL, the
   * user name as `User-Agent`, the address as `Host`, the protocol version, the credential, and,
   * for an initial sentence framed by the checksum framing, that sentence without its CR LF.
   */
  lemma RequestReadsBack(settings: NtripClientSettings, body: string)
    requires ':' !in settings.addr
    requires '\r' !in body && '\n' !in body && settings.initialGgaSentence == Nmea.Framed(body)
    ensures var r := CreateRequest(settings);
      && ParseUrl(r.url) == Some((settings.addr, settings.port as nat, settings.mountpoint))
      && r.headers[0] == ("User-Agent", settings.username)
      && r.headers[1] == ("Host", settings.addr)
      && r.headers[2] == ("Ntrip-Version", "Ntrip/2.0")
      && r.headers[3] == ("Ntrip-GGA", body + "*" + Nmea.Hex2(Nmea.XorAll(Nmea.AfterFirst(body))))
      && r.headers[4].0 == "Authorization" && r.headers[4].1[..6] == "Basic "
      && Base64Decode(r.headers[4].1[6..]) == Some(Utf8(settings.username + ":" + settings.password))
  {
    UrlRoundTrip(settings);
    StripFramed(body);
    CredentialsDecode(settings);
  }
}
