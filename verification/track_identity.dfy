/**
 Track identity: the key `createSongId` derives from an (artist, title) pair.
 The pair is joined with `_`, lower-cased, every UTF-16 code unit outside
 `[a-z0-9]` is replaced by `_` (one for one), and the result is
 base64-encoded.

 Dafny strings are sequences of Unicode scalar values, while a JavaScript
 string is a sequence of UTF-16 code units: a character above U+FFFF is
 one `char` here and two code units (a surrogate pair) there. The regular
 expression has no `u` flag, so it replaces each code unit separately.
 */
module TrackIdentity {
  import opened Common
  import opened Base64

  /** Lower-casing of one character (ASCII letters only). */
  function Lower(c: char): char {
    if 'A' <= c <= 'Z' then (c as int + 32) as char else c
  }

  /** How many UTF-16 code units JavaScript stores for `c`. */
  function CodeUnits(c: char): nat {
    if c as int > 0xFFFF then 2 else 1
  }

  /** `s.length` in JavaScript: the length in UTF-16 code units. */
  function JsLength(s: string): nat
    decreases |s|
  {
    if |s| == 0 then 0 else CodeUnits(s[0]) + JsLength(s[1..])
  }

  /** One character of a code unit's replacement: lower-cased, or `_` when not `[a-z0-9]`. */
  function CanonChar(c: char): char {
    var l := Lower(c);
    if IsLowerAlnum(l) then l else '_'
  }

  /** What the replacement makes of one character: a `_` for each of its code units unless it lower-cases into `[a-z0-9]`. */
  function CanonUnits(c: char): (u: string)
    ensures |u| == CodeUnits(c)
    ensures forall i :: 0 <= i < |u| ==> IsLowerAlnum(u[i]) || u[i] == '_'
  {
    if CodeUnits(c) == 2 then "__" else [CanonChar(c)]
  }

  /** `s.toLowerCase().replace(/[^a-z0-9]/g, '_')`. */
  function CanonString(s: string): (r: string)
    ensures |r| == JsLength(s)
    ensures forall i :: 0 <= i < |r| ==> IsLowerAlnum(r[i]) || r[i] == '_'
    decreases |s|
  {
    if |s| == 0 then "" else CanonUnits(s[0]) + CanonString(s[1..])
  }

  /** The replacement works character by character, so it distributes over concatenation. */
  lemma {:induction false} CanonStringAppend(x: string, y: string)
    ensures CanonString(x + y) == CanonString(x) + CanonString(y)
    decreases |x|
  {
    if |x| == 0 {
      assert x + y == y;
    } else {
      assert (x + y)[0] == x[0];
      assert (x + y)[1..] == x[1..] + y;
      CanonStringAppend(x[1..], y);
    }
  }

  /** `(artist + '_' + title).toLowerCase().replace(/[^a-z0-9]/g, '_')` */
  function Canonical(artist: string, title: string): (r: string)
    ensures r == CanonString(artist) + "_" + CanonString(title)
    ensures |r| == JsLength(artist) + 1 + JsLength(title)
    ensures forall i :: 0 <= i < |r| ==> IsLowerAlnum(r[i]) || r[i] == '_'
    ensures r[JsLength(artist)] == '_'
  {
    CanonStringAppend(artist + "_", title);
    CanonStringAppend(artist, "_");
    assert CanonString("_") == "_";
    CanonString(artist + "_" + title)
  }

  /** On text without characters above U+FFFF, the i-th character of the canonical string comes from the i-th input character. */
  lemma {:induction false} CanonStringBmp(s: string)
    requires forall i :: 0 <= i < |s| ==> CodeUnits(s[i]) == 1
    ensures |CanonString(s)| == |s|
    ensures forall i :: 0 <= i < |s| ==> CanonString(s)[i] == CanonChar(s[i])
    decreases |s|
  {
    if |s| > 0 {
      CanonStringBmp(s[1..]);
      assert CanonString(s) == [CanonChar(s[0])] + CanonString(s[1..]);
    }
  }

  /** Canonical text is ASCII letters, digits and `_`, whose bytes avoid the sextets of `+` and `/`. */
  lemma KeyTextBytes(canon: string)
    requires forall i :: 0 <= i < |canon| ==> IsLowerAlnum(canon[i]) || canon[i] == '_'
    ensures IsLatin1(canon)
    ensures forall i :: 0 <= i < |canon| ==> AvoidsHighSextets(Latin1Bytes(canon)[i])
  {
    assert IsLatin1(canon) by {
      forall i | 0 <= i < |canon| ensures canon[i] as int < 256 {
        assert IsLowerAlnum(canon[i]) || canon[i] == '_';
      }
    }
    var bytes := Latin1Bytes(canon);
    forall i | 0 <= i < |canon| ensures AvoidsHighSextets(bytes[i]) {
      assert bytes[i] == canon[i] as int;
      assert IsLowerAlnum(canon[i]) || canon[i] == '_';
    }
  }

  /** `createSongId(artist, title)`. */
  function CreateSongId(artist: string, title: string): (key: string)
    ensures Btoa(Canonical(artist, title)) == Some(key)
    ensures |key| > 0 && IsBase64Text(key)
    ensures '/' !in key && '+' !in key
  {
    var canon := Canonical(artist, title);
    KeyTextBytes(canon);
    var bytes := Latin1Bytes(canon);
    EncodeAvoidsPlusSlash(bytes);
    Encode(bytes)
  }

  /** Two pairs share a key exactly when their canonical strings agree. */
  lemma SongIdEqualIff(a: string, t: string, a': string, t': string)
    ensures CreateSongId(a, t) == CreateSongId(a', t') <==> Canonical(a, t) == Canonical(a', t')
  {
    BtoaInjective(Canonical(a, t), Canonical(a', t'));
  }

  /**
   Two characters are interchangeable in a key when they lower-case to the
   same character, or both lower-case to something outside `[a-z0-9]` and
   take the same number of code units.
   */
  predicate Interchangeable(c: char, c': char) {
    Lower(c) == Lower(c') || (!IsLowerAlnum(Lower(c)) && !IsLowerAlnum(Lower(c')) && CodeUnits(c) == CodeUnits(c'))
  }

  predicate SameUpToCaseAndPunctuation(s: string, s': string) {
    && |s| == |s'|
    && forall i :: 0 <= i < |s| ==> Interchangeable(s[i], s'[i])
  }

  lemma CanonUnitsAgree(c: char, c': char)
    requires Interchangeable(c, c')
    ensures CanonUnits(c) == CanonUnits(c')
  {
  }

  lemma {:induction false} CanonStringAgree(s: string, s': string)
    requires SameUpToCaseAndPunctuation(s, s')
    ensures CanonString(s) == CanonString(s')
    decreases |s|
  {
    if |s| > 0 {
      CanonUnitsAgree(s[0], s'[0]);
      assert SameUpToCaseAndPunctuation(s[1..], s'[1..]) by {
        forall i | 0 <= i < |s| - 1 ensures Interchangeable(s[1..][i], s'[1..][i]) {
          assert Interchangeable(s[i + 1], s'[i + 1]);
        }
      }
      CanonStringAgree(s[1..], s'[1..]);
    }
  }

  /** The key ignores case and which punctuation appears at a position. */
  lemma SongIdIgnoresCaseAndPunctuation(a: string, t: string, a': string, t': string)
    requires SameUpToCaseAndPunctuation(a, a')
    requires SameUpToCaseAndPunctuation(t, t')
    ensures CreateSongId(a, t) == CreateSongId(a', t')
  {
    CanonStringAgree(a, a');
    CanonStringAgree(t, t');
    SongIdEqualIff(a, t, a', t');
  }

  /** Conversely, sharing a key forces equal code-unit lengths of the joined pair and equal canonical strings. */
  lemma SongIdCollisionShape(a: string, t: string, a': string, t': string)
    requires CreateSongId(a, t) == CreateSongId(a', t')
    ensures JsLength(a) + JsLength(t) == JsLength(a') + JsLength(t')
    ensures CanonString(a) + "_" + CanonString(t) == CanonString(a') + "_" + CanonString(t')
  {
    SongIdEqualIff(a, t, a', t');
  }

  /** The case-insensitivity example: upper- and lower-case spellings share a key. */
  lemma UpperAndLowerCaseShareKey()
    ensures CreateSongId("TEST ARTIST", "TEST SONG") == CreateSongId("test artist", "test song")
  {
    SongIdIgnoresCaseAndPunctuation("TEST ARTIST", "TEST SONG", "test artist", "test song");
  }

  /**
   The separator `_` is itself a replacement character, so moving a word
   across the artist/title boundary keeps the key.
   */
  lemma SeparatorCollision()
    ensures CreateSongId("a b", "c") == CreateSongId("a", "b c")
  {
    assert Canonical("a b", "c") == "a_b_c";
    assert Canonical("a", "b c") == "a_b_c";
    SongIdEqualIff("a b", "c", "a", "b c");
  }

  lemma AstralCanonical()
    ensures Canonical("\U{1F600}", "x") == "___x"
  {
    assert CanonString("\U{1F600}") == CanonUnits('\U{1F600}') + CanonString("");
    assert CanonString("x") == CanonUnits('x') + CanonString("");
  }

  /** A character above U+FFFF is two code units, so it becomes two `_`: (😀, x) canonicalises to `___x`. */
  lemma AstralCharacterTakesTwoUnderscores()
    ensures Canonical("\U{1F600}", "x") == "___x"
    ensures CreateSongId("\U{1F600}", "x") == "X19feA=="
  {
    AstralCanonical();
    var bytes := Latin1Bytes("___x");
    assert bytes == [95, 95, 95, 120];
    assert bytes[3..] == [120];
    assert Group(95, 95, 95) == "X19f" by {
      assert SextetChar(23) == 'X' && SextetChar(53) == '1' && SextetChar(61) == '9' && SextetChar(31) == 'f';
    }
    assert Encode([120]) == "eA==" by {
      assert SextetChar(30) == 'e' && SextetChar(0) == 'A';
    }
    assert Encode(bytes) == Group(95, 95, 95) + Encode([120]);
  }
}
