/**
 The publish handshake: the token, the URL that carries it, and the relay's check. The keyed hash
 is any function to 32 bytes.
 */
module Handshake {
  import opened FrameCodec
  import opened Sequences
  import opened Wrappers
  import Base64Url
  import RelayRegistry

  const MAC_BYTES := 32
  const MAX_TOKEN := 512
  const PIPE: byte := 124
  const AMPERSAND: byte := 38
  const EQUALS: byte := 61
  const SEMICOLON: byte := 59
  const PERCENT: byte := 37
  const PLUS: byte := 43
  const SPACE: byte := 32
  const COLON: byte := 58
  /** "channel" and "token" */
  const CHANNEL_KEY: Bytes := [99, 104, 97, 110, 110, 101, 108]
  const TOKEN_KEY: Bytes := [116, 111, 107, 101, 110]

  type int64 = x: int | -0x8000_0000_0000_0000 <= x < 0x8000_0000_0000_0000

  type Hash = h: Bytes -> Bytes | IsHash(h) ghost witness ZeroHash

  ghost predicate IsHash(h: Bytes -> Bytes) {
    forall x :: |h(x)| == MAC_BYTES
  }

  ghost const ZeroHash: Bytes -> Bytes := x => seq(MAC_BYTES, _ => 0)

  // ---- channel ids ----

  /** `^(twitch|kick):[a-z0-9_]{1,64}$` */
  predicate ValidChannel(c: Bytes) {
    RelayRegistry.ValidId(AsText(c))
  }

  lemma ValidChannelLength(c: Bytes)
    requires ValidChannel(c)
    ensures 6 <= |c| <= 71
  {
  }

  // ---- the token ----

  /** Two's complement. */
  function ToUnsigned(e: int64): uint64 {
    if e < 0 then e + 0x1_0000_0000_0000_0000 else e
  }

  function ToSigned(u: uint64): int64 {
    if u < 0x8000_0000_0000_0000 then u else u - 0x1_0000_0000_0000_0000
  }

  function ExpiryBytes(e: int64): (b: Bytes)
    ensures |b| == 8
  {
    BigEndian(ToUnsigned(e), 8)
  }

  function Expiry(b: Bytes): int64
    requires |b| == 8
  {
    Widths();
    BigEndianOfValue(b);
    ToSigned(Value(b))
  }

  lemma ExpiryRoundTrip(e: int64)
    ensures Expiry(ExpiryBytes(e)) == e
  {
    Widths();
    ValueOfBigEndian(ToUnsigned(e), 8);
  }

  function MacInput(channel: Bytes, e: int64): Bytes {
    channel + [0] + ExpiryBytes(e)
  }

  /** Two token contents never share a MAC input, not even for channels that are not valid ids. */
  lemma MacInputInjective(c: Bytes, e: int64, c': Bytes, e': int64)
    requires MacInput(c, e) == MacInput(c', e')
    ensures c == c' && e == e'
  {
    var m := MacInput(c, e);
    assert |m| == |c| + 9 == |c'| + 9;
    assert m[..|c|] == c && m[..|c'|] == c';
    assert m[|c| + 1..] == ExpiryBytes(e) && m[|c'| + 1..] == ExpiryBytes(e');
    ExpiryRoundTrip(e);
    ExpiryRoundTrip(e');
  }

  /** The channel, a zero byte, and the expiry as eight bytes of two's complement in network order. */
  lemma MacInputIs(channel: Bytes, e: int64)
    ensures
      var m := MacInput(channel, e);
      && |m| == |channel| + 9 && m[..|channel|] == channel && m[|channel|] == 0
      && Number8(m[|channel| + 1..]) == if e >= 0 then e else e + 0x1_0000_0000_0000_0000
  {
    var m := MacInput(channel, e);
    assert m[|channel| + 1..] == ExpiryBytes(e);
    Widths();
    ValueOfBigEndian(ToUnsigned(e), 8);
    ValueEight(ExpiryBytes(e));
  }

  function Token(h: Hash, channel: Bytes, e: int64): Bytes {
    Base64Url.Encode(channel) + [PIPE]
        + (Base64Url.Encode(ExpiryBytes(e)) + [PIPE] + Base64Url.Encode(h(MacInput(channel, e))))
  }

  const SECOND := 1_000_000_000

  /** The second in which a time in nanoseconds lies. */
  function Unix(nanoseconds: int): int {
    nanoseconds / SECOND
  }

  /** An invalid channel gets no token; a valid one gets a token that expires ttl nanoseconds from now. */
  method MintToken(h: Hash, channel: Bytes, now: int, ttl: int) returns (r: Option<Bytes>)
    requires -0x8000_0000_0000_0000 <= Unix(now + ttl) < 0x8000_0000_0000_0000
    ensures r == if ValidChannel(channel) then Some(Token(h, channel, Unix(now + ttl))) else None
  {
    if !ValidChannel(channel) {
      return None;
    }
    var e: int64 := Unix(now + ttl);
    var mac := Sign(h, channel, e);
    var parts := [Base64Url.Encode(channel), Base64Url.Encode(ExpiryBytes(e)), Base64Url.Encode(mac)];
    return Some(parts[0] + [PIPE] + (parts[1] + [PIPE] + parts[2]));
  }

  /** The hash is fed field by field. */
  method Sign(h: Hash, channel: Bytes, e: int64) returns (mac: Bytes)
    ensures mac == h(MacInput(channel, e))
  {
    var fed: Bytes := channel;
    fed := fed + [0];
    fed := fed + ExpiryBytes(e);
    return h(fed);
  }

  /** The pieces between separators; always at least one. */
  function Split(s: Bytes, sep: byte): (parts: seq<Bytes>)
    ensures parts != []
    decreases |s|
  {
    var k := Find(s, sep);
    if k == |s| then [s] else [s[..k]] + Split(s[k + 1..], sep)
  }

  ghost predicate Accepts(h: Hash, channel: Bytes, token: Bytes, now: int) {
    && 1 <= |token| <= MAX_TOKEN
    && var parts := Split(token, PIPE);
    && |parts| == 3
    && Base64Url.Decode(parts[0]) == Some(channel)
    && var expBytes := Base64Url.Decode(parts[1]);
    && expBytes.Some? && |expBytes.value| == 8 && Expiry(expBytes.value) > now
    && Base64Url.Decode(parts[2]) == Some(h(MacInput(channel, Expiry(expBytes.value))))
  }

  method VerifyToken(h: Hash, channel: Bytes, token: Bytes, now: int) returns (ok: bool)
    ensures ok <==> Accepts(h, channel, token, now)
  {
    if |token| == 0 || |token| > MAX_TOKEN {
      return false;
    }
    var parts := Split(token, PIPE);
    if |parts| != 3 {
      return false;
    }
    var tokChan := Base64Url.Decode(parts[0]);
    if tokChan == None {
      return false;
    }
    var expBytes := Base64Url.Decode(parts[1]);
    if expBytes == None || |expBytes.value| != 8 {
      return false;
    }
    var mac := Base64Url.Decode(parts[2]);
    if mac == None || |mac.value| != MAC_BYTES {
      return false;
    }
    if tokChan.value != channel {
      return false;
    }
    var e := Expiry(expBytes.value);
    if e <= now {
      return false;
    }
    var want := Sign(h, channel, e);
    return mac.value == want;
  }

  // ---- splitting what was joined ----

  lemma SplitCons(a: Bytes, c: byte, b: Bytes)
    requires c !in a
    ensures Split(a + [c] + b, c) == [a] + Split(b, c)
  {
    FindFirst(a, c, b);
  }

  lemma SplitThree(a: Bytes, b: Bytes, c: Bytes, sep: byte)
    requires sep !in a && sep !in b && sep !in c
    ensures Split(a + [sep] + (b + [sep] + c), sep) == [a, b, c]
  {
    SplitCons(a, sep, b + [sep] + c);
    SplitCons(b, sep, c);
    assert Split(c, sep) == [c];
  }

  lemma LettersOnly(s: Bytes)
    ensures PIPE !in Base64Url.Encode(s)
  {
  }

  lemma TokenParts(h: Hash, channel: Bytes, e: int64)
    ensures Split(Token(h, channel, e), PIPE) ==
              [Base64Url.Encode(channel), Base64Url.Encode(ExpiryBytes(e)), Base64Url.Encode(h(MacInput(channel, e)))]
  {
    LettersOnly(channel);
    LettersOnly(ExpiryBytes(e));
    LettersOnly(h(MacInput(channel, e)));
    SplitThree(Base64Url.Encode(channel), Base64Url.Encode(ExpiryBytes(e)), Base64Url.Encode(h(MacInput(channel, e))),
        PIPE);
  }

  /** A minted token is well within the limit. */
  lemma TokenLength(h: Hash, channel: Bytes, e: int64)
    requires ValidChannel(channel)
    ensures 64 <= |Token(h, channel, e)| <= 151 < MAX_TOKEN
  {
    ValidChannelLength(channel);
    var mac := h(MacInput(channel, e));
    assert |Base64Url.Encode(mac)| == 43 && |Base64Url.Encode(ExpiryBytes(e))| == 11;
    assert 8 <= |Base64Url.Encode(channel)| <= 95;
  }

  /** A token opens exactly the channel it was minted for, and only before it expires. */
  lemma MintedAcceptedIff(h: Hash, channel: Bytes, e: int64, other: Bytes, now: int)
    requires ValidChannel(channel)
    ensures Accepts(h, other, Token(h, channel, e), now) <==> other == channel && now < e
  {
    TokenLength(h, channel, e);
    TokenParts(h, channel, e);
    Base64Url.DecodeEncode(channel);
    Base64Url.DecodeEncode(ExpiryBytes(e));
    Base64Url.DecodeEncode(h(MacInput(channel, e)));
    ExpiryRoundTrip(e);
  }

  /** In terms of the clock: a token with a lifetime of whole seconds is accepted until that much time has passed. */
  lemma TokenLives(h: Hash, channel: Bytes, minted: int, seconds: nat, now: int)
    requires ValidChannel(channel)
    requires -0x8000_0000_0000_0000 <= Unix(minted + seconds * 1_000_000_000) < 0x8000_0000_0000_0000
    ensures Accepts(h, channel, Token(h, channel, Unix(minted + seconds * 1_000_000_000)), Unix(now))
            <==> Unix(now) - Unix(minted) < seconds
  {
    MintedAcceptedIff(h, channel, Unix(minted + seconds * SECOND), channel, Unix(now));
    assert Unix(minted + seconds * SECOND) == Unix(minted) + seconds;
  }

  // ---- percent-encoding ----

  /** Letters, digits, "-", "_", ".", "~" and, for channel ids, ":". */
  predicate IsUnreserved(b: byte) {
    97 <= b <= 122 || 65 <= b <= 90 || 48 <= b <= 57 || b == 45 || b == 95 || b == 46 || b == 126 || b == COLON
  }

  function HexDigit(x: int): byte
    requires 0 <= x < 16
  {
    if x < 10 then 48 + x else 65 + (x - 10)
  }

  function Escaped(b: byte): Bytes {
    if IsUnreserved(b) then [b] else [PERCENT, HexDigit(b / 16), HexDigit(b % 16)]
  }

  function Escape(s: Bytes): Bytes {
    if s == [] then [] else Escape(s[..|s| - 1]) + Escaped(s[|s| - 1])
  }

  method UrlEncode(s: Bytes) returns (out: Bytes)
    ensures out == Escape(s)
  {
    out := [];
    for i := 0 to |s|
      invariant out == Escape(s[..i])
    {
      var c := s[i];
      assert s[..i + 1][..i] == s[..i];
      if IsUnreserved(c) {
        out := out + [c];
      } else {
        out := out + [PERCENT];
        out := out + [HexDigit(c / 16)];
        out := out + [HexDigit(c % 16)];
        assert Escape(s[..i]) + Escaped(c) == out;
      }
    }
    assert s[..|s|] == s;
  }

  /** The value of a hexadecimal digit in either case. */
  function HexValue(b: byte): Option<byte> {
    if 48 <= b <= 57 then Some(b - 48)
    else if 97 <= b <= 102 then Some(b - 97 + 10)
    else if 65 <= b <= 70 then Some(b - 65 + 10)
    else None
  }

  /** The relay's query unescaping. */
  function Unescape(s: Bytes): Option<Bytes> {
    if s == [] then Some([])
    else if s[0] == PERCENT then
      if |s| < 3 || HexValue(s[1]) == None || HexValue(s[2]) == None then None
      else Prepend((HexValue(s[1]).value * 16 + HexValue(s[2]).value) % 256, Unescape(s[3..]))
    else Prepend(if s[0] == PLUS then SPACE else s[0], Unescape(s[1..]))
  }

  function Prepend(b: byte, r: Option<Bytes>): Option<Bytes> {
    match r
    case None => None
    case Some(s) => Some([b] + s)
  }

  lemma {:induction false} EscapeCons(b: byte, s: Bytes)
    ensures Escape([b] + s) == Escaped(b) + Escape(s)
    decreases |s|
  {
    if s == [] {
      assert ([b] + s)[..0] == [];
      assert Escape([b] + s) == Escape([]) + Escaped(b);
    } else {
      var init, c := s[..|s| - 1], s[|s| - 1];
      assert ([b] + s)[..|s|] == [b] + init;
      EscapeCons(b, init);
      assert (Escaped(b) + Escape(init)) + Escaped(c) == Escaped(b) + (Escape(init) + Escaped(c));
    }
  }

  lemma UnescapeOne(b: byte, rest: Bytes)
    ensures Unescape(Escaped(b) + rest) == Prepend(b, Unescape(rest))
  {
    var s := Escaped(b) + rest;
    if IsUnreserved(b) {
      assert s[1..] == rest;
    } else {
      assert s[3..] == rest;
      assert HexValue(HexDigit(b / 16)) == Some(b / 16) && HexValue(HexDigit(b % 16)) == Some(b % 16);
    }
  }

  /** Any byte string survives. */
  lemma {:induction false} UnescapeEscape(s: Bytes)
    ensures Unescape(Escape(s)) == Some(s)
  {
    if s != [] {
      assert s == [s[0]] + s[1..];
      EscapeCons(s[0], s[1..]);
      UnescapeOne(s[0], Escape(s[1..]));
      UnescapeEscape(s[1..]);
    }
  }

  /** Letters, digits and "-_.~:" stay as they are; other bytes become "%" and two capital hexadecimal digits. */
  lemma EscapedIs(b: byte, c: char)
    requires b == c as int
    ensures Escaped(b) == [b] <==>
            || 'a' <= c <= 'z' || 'A' <= c <= 'Z' || '0' <= c <= '9'
            || c == '-' || c == '_' || c == '.' || c == '~' || c == ':'
    ensures Escaped(b) != [b] ==>
              exists high, low ::
                0 <= high < 16 && 0 <= low < 16 && b == high * 16 + low
                && Escaped(b) == ['%' as int, Hexadecimal(high, 'A'), Hexadecimal(low, 'A')]
  {
    if Escaped(b) != [b] {
      assert b == b / 16 * 16 + b % 16;
      assert Escaped(b) == ['%' as int, Hexadecimal(b / 16, 'A'), Hexadecimal(b % 16, 'A')];
    }
  }

  /** A hexadecimal digit, with letters from this one on. */
  function Hexadecimal(x: int, ten: char): byte
    requires 0 <= x < 16 && ten < 128 as char
  {
    if x < 10 then '0' as int + x else ten as int + (x - 10)
  }

  lemma HexadecimalReads(x: int, capital: bool)
    requires 0 <= x < 16
    ensures HexValue(Hexadecimal(x, if capital then 'A' else 'a')) == Some(x)
  {
  }

  lemma UnescapeHex(a: byte, b: byte, rest: Bytes)
    requires HexValue(a).Some? && HexValue(b).Some?
    ensures Unescape([PERCENT, a, b] + rest)
         == Prepend((HexValue(a).value * 16 + HexValue(b).value) % 256, Unescape(rest))
  {
    assert ([PERCENT, a, b] + rest)[3..] == rest;
  }

  /** Unescaping takes "%" with two hexadecimal digits of either case for a byte, */
  lemma UnescapeReads(high: int, low: int, ten: char, rest: Bytes)
    requires 0 <= high < 16 && 0 <= low < 16 && (ten == 'A' || ten == 'a')
    ensures Unescape(['%' as int, Hexadecimal(high, ten), Hexadecimal(low, ten)] + rest) ==
              Prepend(high * 16 + low, Unescape(rest))
  {
    HexadecimalReads(high, ten == 'A');
    HexadecimalReads(low, ten == 'A');
    UnescapeHex(Hexadecimal(high, ten), Hexadecimal(low, ten), rest);
    assert (high * 16 + low) % 256 == high * 16 + low;
  }

  /** and "+" for a space. */
  lemma UnescapePlus(rest: Bytes)
    ensures Unescape(['+' as int] + rest) == Prepend(' ' as int, Unescape(rest))
  {
    assert (['+' as int] + rest)[1..] == rest;
  }

  // ---- the query ----

  /** What may appear in an escaped string. */
  predicate IsEscapedByte(b: byte) {
    IsUnreserved(b) || b == PERCENT
  }

  lemma {:induction false} EscapeBytes(s: Bytes)
    ensures forall b :: b in Escape(s) ==> IsEscapedByte(b)
  {
    if s != [] {
      EscapeBytes(s[..|s| - 1]);
    }
  }

  function Query(channel: Bytes, token: Bytes): Bytes {
    (CHANNEL_KEY + [EQUALS] + Escape(channel)) + [AMPERSAND] + (TOKEN_KEY + [EQUALS] + Escape(token))
  }

  /** One `key=value` piece; none for an empty or malformed one. */
  function Pair(piece: Bytes): Option<(Bytes, Bytes)> {
    if piece == [] || SEMICOLON in piece then None
    else
      var k := Find(piece, EQUALS);
      var key, value := Unescape(piece[..k]), Unescape(if k == |piece| then [] else piece[k + 1..]);
      if key == None || value == None then None else Some((key.value, value.value))
  }

  /** The first value of a key, or the empty string. */
  function Get(pieces: seq<Bytes>, key: Bytes): Bytes {
    if pieces == [] then []
    else
      match Pair(pieces[0])
      case Some((k, v)) => if k == key then v else Get(pieces[1..], key)
      case None => Get(pieces[1..], key)
  }

  /**
   A piece of the query without a semicolon is a key and a value, each unescaped; one with a semicolon,
   or with an escape that cannot be read, counts for nothing.
   */
  lemma PairReads(key: Bytes, value: Bytes)
    requires EQUALS !in key
    ensures Pair([]) == None && (SEMICOLON in key || SEMICOLON in value ==> Pair(key + [EQUALS] + value) == None)
    ensures SEMICOLON !in key && SEMICOLON !in value ==>
              Pair(key + [EQUALS] + value) ==
              if Unescape(key).Some? && Unescape(value).Some? then Some((Unescape(key).value, Unescape(value).value))
              else None
  {
    FindFirst(key, EQUALS, value);
    var piece := key + [EQUALS] + value;
    assert SEMICOLON in piece <==> SEMICOLON in key || SEMICOLON in value;
  }

  /** The first piece with the key decides. */
  lemma {:induction false} FirstValueCounts(pieces: seq<Bytes>, key: Bytes, i: nat)
    requires i <= |pieces| && forall j :: 0 <= j < i ==> Pair(pieces[j]).None? || Pair(pieces[j]).value.0 != key
    ensures i == |pieces| ==> Get(pieces, key) == []
    ensures i < |pieces| && Pair(pieces[i]).Some? && Pair(pieces[i]).value.0 == key ==>
              Get(pieces, key) == Pair(pieces[i]).value.1
    decreases |pieces|
  {
    if i > 0 {
      FirstValueCounts(pieces[1..], key, i - 1);
    }
  }

  lemma {:induction false} UnescapePlain(s: Bytes)
    requires forall b :: b in s ==> IsUnreserved(b)
    ensures Unescape(s) == Some(s)
  {
    if s != [] {
      assert s[0] in s && s == [s[0]] + s[1..];
      UnescapePlain(s[1..]);
    }
  }

  lemma PieceBytes(key: Bytes, v: Bytes)
    requires forall b :: b in key ==> IsUnreserved(b)
    ensures EQUALS !in key && SEMICOLON !in key + [EQUALS] + Escape(v) && AMPERSAND !in key + [EQUALS] + Escape(v)
  {
    EscapeBytes(v);
  }

  lemma PairOf(key: Bytes, v: Bytes)
    requires forall b :: b in key ==> IsUnreserved(b)
    ensures Pair(key + [EQUALS] + Escape(v)) == Some((key, v))
    ensures AMPERSAND !in key + [EQUALS] + Escape(v)
  {
    PieceBytes(key, v);
    FindFirst(key, EQUALS, Escape(v));
    UnescapePlain(key);
    UnescapeEscape(v);
  }

  lemma KeysUnreserved()
    ensures forall b :: b in CHANNEL_KEY ==> IsUnreserved(b)
    ensures forall b :: b in TOKEN_KEY ==> IsUnreserved(b)
  {
  }

  /** The relay reads from the URL exactly the channel and token that the publisher wrote into it, for any bytes. */
  lemma QueryRoundTrip(channel: Bytes, token: Bytes)
    ensures
      var pieces := Split(Query(channel, token), AMPERSAND);
      Get(pieces, CHANNEL_KEY) == channel && Get(pieces, TOKEN_KEY) == token
  {
    var a, b := CHANNEL_KEY + [EQUALS] + Escape(channel), TOKEN_KEY + [EQUALS] + Escape(token);
    KeysUnreserved();
    PairOf(CHANNEL_KEY, channel);
    PairOf(TOKEN_KEY, token);
    SplitCons(a, AMPERSAND, b);
    assert Split(b, AMPERSAND) == [b];
    GetTwo(a, b, channel, token);
  }

  lemma GetTwo(a: Bytes, b: Bytes, channel: Bytes, token: Bytes)
    requires Pair(a) == Some((CHANNEL_KEY, channel)) && Pair(b) == Some((TOKEN_KEY, token))
    ensures Get([a] + [b], CHANNEL_KEY) == channel && Get([a] + [b], TOKEN_KEY) == token
  {
    assert ([a] + [b])[1..] == [b];
    assert |CHANNEL_KEY| != |TOKEN_KEY|;
    assert Get([b], TOKEN_KEY) == token;
  }

  // ---- the whole handshake ----

  datatype Answer = BadRequest | Unauthorised | Admitted(channel: Bytes)

  /** The relay's reply to a publish request with the given query. */
  method Authorise(h: Hash, query: Bytes, now: int) returns (a: Answer)
    ensures a == Reply(h, query, now)
  {
    var pieces := Split(query, AMPERSAND);
    var channel := Get(pieces, CHANNEL_KEY);
    var token := Get(pieces, TOKEN_KEY);
    if !ValidChannel(channel) {
      return BadRequest;
    }
    var ok := VerifyToken(h, channel, token, now);
    if !ok {
      return Unauthorised;
    }
    return Admitted(channel);
  }

  ghost function Reply(h: Hash, query: Bytes, now: int): Answer {
    var pieces := Split(query, AMPERSAND);
    var channel := Get(pieces, CHANNEL_KEY);
    if !ValidChannel(channel) then BadRequest
    else if Accepts(h, channel, Get(pieces, TOKEN_KEY), now) then Admitted(channel)
    else Unauthorised
  }

  /**
   A publisher configured with any channel and with the token minted for a valid channel is
   admitted, to that channel, exactly when the two are the same and the token has not expired.
   */
  lemma HandshakeRoundTrip(h: Hash, configured: Bytes, minted: Bytes, e: int64, now: int)
    requires ValidChannel(minted)
    ensures Reply(h, Query(configured, Token(h, minted, e)), now) ==
              if !ValidChannel(configured) then BadRequest
              else if configured == minted && now < e then Admitted(minted)
              else Unauthorised
  {
    QueryRoundTrip(configured, Token(h, minted, e));
    MintedAcceptedIff(h, minted, e, configured, now);
  }

  /** The token is of that channel, carries this expiry, and the hash of it and the channel. */
  ghost predicate Signed(h: Hash, channel: Bytes, token: Bytes, e: int64) {
    var parts := Split(token, PIPE);
    && 1 <= |token| <= 512 && |parts| == 3
    && Base64Url.Decode(parts[0]) == Some(channel)
    && var expBytes := Base64Url.Decode(parts[1]);
    && expBytes.Some? && |expBytes.value| == 8 && Expiry(expBytes.value) == e
    && Base64Url.Decode(parts[2]) == Some(h(MacInput(channel, e)))
  }

  /** Conversely, whoever is admitted showed a token whose expiry is still ahead, signed for that channel and expiry. */
  lemma AdmittedHasMac(h: Hash, query: Bytes, now: int)
    requires Reply(h, query, now).Admitted?
    ensures exists e: int64 :: e > now
              && Signed(h, Reply(h, query, now).channel, Get(Split(query, AMPERSAND), TOKEN_KEY), e)
  {
    var _ := AcceptedHasMac(h, Reply(h, query, now).channel, Get(Split(query, AMPERSAND), TOKEN_KEY), now);
  }

  lemma AcceptedHasMac(h: Hash, channel: Bytes, token: Bytes, now: int) returns (e: int64)
    requires Accepts(h, channel, token, now)
    ensures e > now && Signed(h, channel, token, e)
  {
    e := Expiry(Base64Url.Decode(Split(token, PIPE)[1]).value);
  }
}
