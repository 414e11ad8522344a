/**
 The `btoa` encoding: base64 (RFC 4648, section 4, with `=` padding) of a
 string whose code units are all Latin-1, each code unit taken as one byte.
 */
module Base64 {
  import opened Common

  type Byte = b: int | 0 <= b < 256

  /** The character for a 6-bit group: `A`-`Z`, `a`-`z`, `0`-`9`, `+`, `/`. */
  function SextetChar(i: nat): (c: char)
    requires i < 64
    ensures c != '='
  {
    if i < 26 then (65 + i) as char
    else if i < 52 then (97 + i - 26) as char
    else if i < 62 then (48 + i - 52) as char
    else if i == 62 then '+'
    else '/'
  }

  /** The 6-bit group a base64 character stands for (0 for any other character). */
  function SextetValue(c: char): (i: nat)
    ensures i < 64
  {
    if 'A' <= c <= 'Z' then c as int - 65
    else if 'a' <= c <= 'z' then c as int - 97 + 26
    else if '0' <= c <= '9' then c as int - 48 + 52
    else if c == '+' then 62
    else if c == '/' then 63
    else 0
  }

  lemma SextetRoundTrip(i: nat)
    requires i < 64
    ensures SextetValue(SextetChar(i)) == i
  {
  }

  predicate IsBase64Char(c: char) {
    ('A' <= c <= 'Z') || ('a' <= c <= 'z') || ('0' <= c <= '9') || c == '+' || c == '/' || c == '='
  }

  predicate IsBase64Text(s: string) {
    forall i :: 0 <= i < |s| ==> IsBase64Char(s[i])
  }

  /** The four characters of a full three-byte group. */
  function Group(b0: Byte, b1: Byte, b2: Byte): (g: string)
    ensures |g| == 4
  {
    [SextetChar(b0 / 4), SextetChar(b0 % 4 * 16 + b1 / 16), SextetChar(b1 % 16 * 4 + b2 / 64), SextetChar(b2 % 64)]
  }

  /** Base64 of a byte sequence, three bytes to four characters. */
  function Encode(bytes: seq<Byte>): (s: string)
    ensures |s| == 4 * ((|bytes| + 2) / 3)
    ensures IsBase64Text(s)
    decreases |bytes|
  {
    if |bytes| == 0 then ""
    else if |bytes| == 1 then
      [SextetChar(bytes[0] / 4), SextetChar(bytes[0] % 4 * 16), '=', '=']
    else if |bytes| == 2 then
      [SextetChar(bytes[0] / 4), SextetChar(bytes[0] % 4 * 16 + bytes[1] / 16),
       SextetChar(bytes[1] % 16 * 4), '=']
    else
      Group(bytes[0], bytes[1], bytes[2]) + Encode(bytes[3..])
  }

  /** The bytes one four-character group stands for, honouring `=` padding. */
  function DecodeGroup(c0: char, c1: char, c2: char, c3: char): seq<Byte> {
    var s0, s1, s2, s3 := SextetValue(c0), SextetValue(c1), SextetValue(c2), SextetValue(c3);
    var b0: Byte := s0 * 4 + s1 / 16;
    var b1: Byte := s1 % 16 * 16 + s2 / 4;
    var b2: Byte := s2 % 4 * 64 + s3;
    if c2 == '=' then [b0]
    else if c3 == '=' then [b0, b1]
    else [b0, b1, b2]
  }

  /** Base64 decoding, group by group; a trailing partial group is ignored. */
  function Decode(s: string): seq<Byte>
    decreases |s|
  {
    if |s| < 4 then [] else DecodeGroup(s[0], s[1], s[2], s[3]) + Decode(s[4..])
  }

  lemma Mix(q: int, r: int, k: int)
    requires k == 4 || k == 16 || k == 64
    requires 0 <= r < k
    ensures (q * k + r) / k == q && (q * k + r) % k == r
  {
  }

  /** The 6-bit groups of three bytes give the bytes back. */
  lemma SextetsRecombine(b0: Byte, b1: Byte, b2: Byte)
    ensures var s1 := b0 % 4 * 16 + b1 / 16;
            var s2 := b1 % 16 * 4 + b2 / 64;
            && b0 / 4 * 4 + s1 / 16 == b0
            && s1 % 16 * 16 + s2 / 4 == b1
            && s2 % 4 * 64 + b2 % 64 == b2
  {
    Mix(b0 % 4, b1 / 16, 16);
    Mix(b1 % 16, b2 / 64, 4);
  }

  lemma GroupRoundTrip(b0: Byte, b1: Byte, b2: Byte)
    ensures var g := Group(b0, b1, b2); DecodeGroup(g[0], g[1], g[2], g[3]) == [b0, b1, b2]
  {
    var s1 := b0 % 4 * 16 + b1 / 16;
    var s2 := b1 % 16 * 4 + b2 / 64;
    SextetRoundTrip(b0 / 4);
    SextetRoundTrip(s1);
    SextetRoundTrip(s2);
    SextetRoundTrip(b2 % 64);
    SextetsRecombine(b0, b1, b2);
  }

  lemma PairRoundTrip(b0: Byte, b1: Byte)
    ensures DecodeGroup(SextetChar(b0 / 4), SextetChar(b0 % 4 * 16 + b1 / 16),
                        SextetChar(b1 % 16 * 4), '=') == [b0, b1]
  {
    SextetRoundTrip(b0 / 4);
    SextetRoundTrip(b0 % 4 * 16 + b1 / 16);
    SextetRoundTrip(b1 % 16 * 4);
    SextetsRecombine(b0, b1, 0);
  }

  lemma SingleRoundTrip(b0: Byte)
    ensures DecodeGroup(SextetChar(b0 / 4), SextetChar(b0 % 4 * 16), '=', '=') == [b0]
  {
    SextetRoundTrip(b0 / 4);
    SextetRoundTrip(b0 % 4 * 16);
    SextetsRecombine(b0, 0, 0);
  }

  lemma DecodeAfterGroup(g: string, rest: string)
    requires |g| == 4
    ensures Decode(g + rest) == DecodeGroup(g[0], g[1], g[2], g[3]) + Decode(rest)
  {
    assert (g + rest)[4..] == rest;
  }

  /** Decoding undoes encoding. */
  lemma {:induction false} DecodeEncode(bytes: seq<Byte>)
    ensures Decode(Encode(bytes)) == bytes
    decreases |bytes|
  {
    if |bytes| == 0 {
    } else if |bytes| == 1 {
      SingleRoundTrip(bytes[0]);
    } else if |bytes| == 2 {
      PairRoundTrip(bytes[0], bytes[1]);
    } else {
      var g := Group(bytes[0], bytes[1], bytes[2]);
      var rest := Encode(bytes[3..]);
      assert Encode(bytes) == g + rest;
      DecodeAfterGroup(g, rest);
      GroupRoundTrip(bytes[0], bytes[1], bytes[2]);
      DecodeEncode(bytes[3..]);
      assert bytes == [bytes[0], bytes[1], bytes[2]] + bytes[3..];
    }
  }

  lemma EncodeInjective(a: seq<Byte>, b: seq<Byte>)
    ensures Encode(a) == Encode(b) <==> a == b
  {
    if Encode(a) == Encode(b) {
      DecodeEncode(a);
      DecodeEncode(b);
    }
  }

  /**
   A byte below 128 whose low six bits are not 62 or 63 never yields the
   6-bit groups 62 (`+`) or 63 (`/`), wherever it sits in a group.
   */
  predicate AvoidsHighSextets(b: Byte) {
    b < 128 && b % 64 < 62
  }

  lemma {:induction false} EncodeAvoidsPlusSlash(bytes: seq<Byte>)
    requires forall i :: 0 <= i < |bytes| ==> AvoidsHighSextets(bytes[i])
    ensures '+' !in Encode(bytes) && '/' !in Encode(bytes)
    decreases |bytes|
  {
    if |bytes| >= 3 {
      EncodeAvoidsPlusSlash(bytes[3..]);
    }
  }

  predicate IsLatin1(s: string) {
    forall i :: 0 <= i < |s| ==> s[i] as int < 256
  }

  /** The code units of a Latin-1 string as bytes. */
  function Latin1Bytes(s: string): (bytes: seq<Byte>)
    requires IsLatin1(s)
    ensures |bytes| == |s|
    ensures forall i :: 0 <= i < |s| ==> bytes[i] == s[i] as int
  {
    seq(|s|, i requires 0 <= i < |s| && IsLatin1(s) => s[i] as int as Byte)
  }

  /** `btoa(s)`: `None` stands for the `InvalidCharacterError` it throws on a non-Latin-1 string. */
  function Btoa(s: string): (r: Option<string>)
    ensures r.Some? <==> IsLatin1(s)
  {
    if IsLatin1(s) then Some(Encode(Latin1Bytes(s))) else None
  }

  /** Different Latin-1 strings have different encodings. */
  lemma BtoaInjective(s: string, t: string)
    requires IsLatin1(s) && IsLatin1(t)
    ensures Btoa(s) == Btoa(t) <==> s == t
  {
    if Btoa(s) == Btoa(t) {
      EncodeInjective(Latin1Bytes(s), Latin1Bytes(t));
      assert |s| == |t|;
      forall i | 0 <= i < |s| ensures s[i] == t[i] {
        assert Latin1Bytes(s)[i] == Latin1Bytes(t)[i];
      }
    }
  }
}
