/** Base64 with the URL alphabet and no padding (section 5 of RFC 4648), as the token library reads and writes it. */
module Base64Url {
  import opened Wrappers

  const LF: byte := 10
  const CR: byte := 13

  type sextet = x: int | 0 <= x < 64

  /** A-Z, a-z, 0-9, '-' and '_' */
  function Letter(x: sextet): byte {
    if x < 26 then 65 + x
    else if x < 52 then 97 + (x - 26)
    else if x < 62 then 48 + (x - 52)
    else if x == 62 then 45
    else 95
  }

  predicate IsLetter(b: byte) {
    65 <= b <= 90 || 97 <= b <= 122 || 48 <= b <= 57 || b == 45 || b == 95
  }

  function Index(b: byte): Option<sextet> {
    if 65 <= b <= 90 then Some(b - 65)
    else if 97 <= b <= 122 then Some(b - 97 + 26)
    else if 48 <= b <= 57 then Some(b - 48 + 52)
    else if b == 45 then Some(62)
    else if b == 95 then Some(63)
    else None
  }

  lemma LetterIndex(x: sextet)
    ensures Index(Letter(x)) == Some(x) && IsLetter(Letter(x))
  {
  }

  function Encode(s: Bytes): (t: Bytes)
    ensures forall i :: 0 <= i < |t| ==> IsLetter(t[i])
    ensures |t| == 4 * (|s| / 3) + (if |s| % 3 == 0 then 0 else |s| % 3 + 1)
  {
    if s == [] then []
    else if |s| == 1 then [Letter(s[0] / 4), Letter(s[0] % 4 * 16)]
    else if |s| == 2 then [Letter(s[0] / 4), Letter(s[0] % 4 * 16 + s[1] / 16), Letter(s[1] % 16 * 4)]
    else
      [Letter(s[0] / 4), Letter(s[0] % 4 * 16 + s[1] / 16), Letter(s[1] % 16 * 4 + s[2] / 64), Letter(s[2] % 64)]
      + Encode(s[3..])
  }

  /** The decoder skips line breaks. */
  function WithoutBreaks(t: Bytes): Bytes {
    if t == [] then []
    else (if t[0] == LF || t[0] == CR then [] else [t[0]]) + WithoutBreaks(t[1..])
  }

  /**
   Groups of four letters; a last group of two or three is cut short, its low bits ignored; one
   letter alone is an error.
   */
  function DecodeLetters(t: Bytes): Option<Bytes> {
    if t == [] then Some([])
    else if |t| == 1 || Index(t[0]) == None || Index(t[1]) == None then None
    else
      var a, b := Index(t[0]).value, Index(t[1]).value;
      var first: byte := a * 4 + b / 16;
      if |t| == 2 then Some([first])
      else if Index(t[2]) == None then None
      else
        var c := Index(t[2]).value;
        var second: byte := b % 16 * 16 + c / 4;
        if |t| == 3 then Some([first, second])
        else if Index(t[3]) == None then None
        else
          match DecodeLetters(t[4..])
          case None => None
          case Some(rest) => Some([first, second, (c % 4 * 64 + Index(t[3]).value) as byte] + rest)
  }

  function Decode(t: Bytes): Option<Bytes> {
    DecodeLetters(WithoutBreaks(t))
  }

  lemma {:induction false} NoBreaks(t: Bytes)
    requires LF !in t && CR !in t
    ensures WithoutBreaks(t) == t
  {
    if t != [] {
      NoBreaks(t[1..]);
    }
  }

  lemma Sextets(a: byte, b: byte, c: byte)
    ensures a / 4 * 4 + (a % 4 * 16 + b / 16) / 16 == a
    ensures (a % 4 * 16 + b / 16) % 16 * 16 + (b % 16 * 4 + c / 64) / 4 == b
    ensures (b % 16 * 4 + c / 64) % 4 * 64 + c % 64 == c
  {
  }

  lemma OneByte(x: byte)
    ensures DecodeLetters(Encode([x])) == Some([x])
  {
    LetterIndex(x / 4);
    LetterIndex(x % 4 * 16);
    Sextets(x, 0, 0);
  }

  lemma TwoLetters(a: sextet, b: sextet, c: sextet)
    ensures DecodeLetters([Letter(a), Letter(b), Letter(c)]) == Some([a * 4 + b / 16, b % 16 * 16 + c / 4])
  {
    LetterIndex(a);
    LetterIndex(b);
    LetterIndex(c);
  }

  lemma TwoBytes(x: byte, y: byte)
    ensures DecodeLetters(Encode([x, y])) == Some([x, y])
  {
    TwoLetters(x / 4, x % 4 * 16 + y / 16, y % 16 * 4);
    Sextets(x, y, 0);
  }

  lemma Group(a: sextet, b: sextet, c: sextet, d: sextet, rest: Bytes, tail: Bytes)
    requires DecodeLetters(rest) == Some(tail)
    ensures DecodeLetters([Letter(a), Letter(b), Letter(c), Letter(d)] + rest)
         == Some([a * 4 + b / 16, b % 16 * 16 + c / 4, c % 4 * 64 + d] + tail)
  {
    LetterIndex(a);
    LetterIndex(b);
    LetterIndex(c);
    LetterIndex(d);
    assert ([Letter(a), Letter(b), Letter(c), Letter(d)] + rest)[4..] == rest;
  }

  lemma ThreeBytes(x: byte, y: byte, z: byte, s: Bytes)
    requires DecodeLetters(Encode(s)) == Some(s)
    ensures DecodeLetters(Encode([x, y, z] + s)) == Some([x, y, z] + s)
  {
    assert ([x, y, z] + s)[3..] == s;
    Group(x / 4, x % 4 * 16 + y / 16, y % 16 * 4 + z / 64, z % 64, Encode(s), s);
    Sextets(x, y, z);
  }

  lemma {:induction false} DecodeLettersEncode(s: Bytes)
    ensures DecodeLetters(Encode(s)) == Some(s)
    decreases |s|
  {
    if |s| == 1 {
      assert s == [s[0]];
      OneByte(s[0]);
    } else if |s| == 2 {
      assert s == [s[0], s[1]];
      TwoBytes(s[0], s[1]);
    } else if s != [] {
      assert s == [s[0], s[1], s[2]] + s[3..];
      DecodeLettersEncode(s[3..]);
      ThreeBytes(s[0], s[1], s[2], s[3..]);
    }
  }

  /** Every byte string survives. */
  lemma DecodeEncode(s: Bytes)
    ensures Decode(Encode(s)) == Some(s)
  {
    NoBreaks(Encode(s));
    DecodeLettersEncode(s);
  }

  // ---- the standard's own terms ----

  /** The alphabet: capitals, small letters, digits, "-" and "_". */
  lemma AlphabetIs(i: nat)
    ensures i < 26 ==> Letter(i) == 'A' as int + i && Letter(26 + i) == 'a' as int + i
    ensures i < 10 ==> Letter(52 + i) == '0' as int + i
    ensures Letter(62) == '-' as int && Letter(63) == '_' as int
  {
  }

  lemma FourSextets(x: byte, y: byte, z: byte, a: sextet, b: sextet, c: sextet, d: sextet)
    requires ((a * 64 + b) * 64 + c) * 64 + d == (x * 0x100 + y) * 0x100 + z
    ensures a == x / 4 && b == x % 4 * 16 + y / 16 && c == y % 16 * 4 + z / 64 && d == z % 64
  {
    var low: int := (b * 64 + c) * 64 + d;
    assert a * 0x4_0000 + low == x * 0x1_0000 + y * 0x100 + z && 0 <= low < 0x4_0000;
    assert a == x / 4;
    assert b * 0x1000 + (c * 64 + d) == x % 4 * 0x1_0000 + y * 0x100 + z && 0 <= c * 64 + d < 0x1000;
    assert b == x % 4 * 16 + y / 16;
    assert c * 64 + d == y % 16 * 0x100 + z;
  }

  lemma EncodeThree(x: byte, y: byte, z: byte, rest: Bytes)
    ensures Encode([x, y, z] + rest) ==
              [Letter(x / 4), Letter(x % 4 * 16 + y / 16), Letter(y % 16 * 4 + z / 64), Letter(z % 64)] + Encode(rest)
  {
    assert ([x, y, z] + rest)[3..] == rest;
  }

  /** Three bytes are one number of 24 bits, written as four sextets; at the end the missing bits are zero. */
  lemma SextetsOf(x: byte, y: byte, z: byte, rest: Bytes, a: sextet, b: sextet, c: sextet, d: sextet)
    requires ((a * 64 + b) * 64 + c) * 64 + d == (x * 0x100 + y) * 0x100 + z
    ensures Encode([x, y, z] + rest) == [Letter(a), Letter(b), Letter(c), Letter(d)] + Encode(rest)
    ensures z == 0 ==> Encode([x, y]) == [Letter(a), Letter(b), Letter(c)]
    ensures y == z == 0 ==> Encode([x]) == [Letter(a), Letter(b)]
  {
    FourSextets(x, y, z, a, b, c, d);
    EncodeThree(x, y, z, rest);
  }

  lemma {:induction false} BreaksVanish(a: Bytes, b: Bytes)
    ensures WithoutBreaks(a + b) == WithoutBreaks(a) + WithoutBreaks(b)
  {
    if a == [] {
      assert a + b == b;
    } else {
      assert (a + b)[1..] == a[1..] + b;
      BreaksVanish(a[1..], b);
    }
  }

  lemma IndexIff(b: byte)
    ensures Index(b).Some? <==> IsLetter(b)
  {
  }

  lemma GroupDecodesIff(t: Bytes)
    requires |t| >= 4
    ensures DecodeLetters(t).Some? <==>
            && Index(t[0]).Some? && Index(t[1]).Some? && Index(t[2]).Some? && Index(t[3]).Some?
            && DecodeLetters(t[4..]).Some?
  {
  }

  lemma LastDecodesIff(t: Bytes)
    requires |t| < 4
    ensures DecodeLetters(t).Some? <==> |t| != 1 && forall i :: 0 <= i < |t| ==> Index(t[i]).Some?
  {
  }

  lemma {:induction false} LettersDecodeIff(t: Bytes)
    ensures DecodeLetters(t).Some? <==> |t| % 4 != 1 && forall i :: 0 <= i < |t| ==> Index(t[i]).Some?
    decreases |t|
  {
    if |t| >= 4 {
      GroupDecodesIff(t);
      LettersDecodeIff(t[4..]);
      assert |t[4..]| % 4 == |t| % 4;
      assert forall i :: 4 <= i < |t| ==> t[i] == t[4..][i - 4];
    } else {
      LastDecodesIff(t);
    }
  }

  /** Readable is what consists of letters, line breaks apart, with no single letter in a group of its own. */
  lemma DecodableIff(t: Bytes)
    ensures
      var letters := WithoutBreaks(t);
      Decode(t).Some? <==> |letters| % 4 != 1 && forall i :: 0 <= i < |letters| ==> IsLetter(letters[i])
    ensures WithoutBreaks([10] + t) == WithoutBreaks([13] + t) == WithoutBreaks(t)
  {
    LettersDecodeIff(WithoutBreaks(t));
    forall b: byte ensures Index(b).Some? <==> IsLetter(b) {
      IndexIff(b);
    }
    assert ([10] + t)[1..] == t && ([13] + t)[1..] == t;
  }
}
