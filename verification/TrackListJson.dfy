/**
 The TRACK_LIST payload: the publisher's hand-written printer and the validating decoder, on the
 one shape that the printer produces.
 */
module TrackListJson {
  import opened Sequences
  import opened Wrappers
  import FrameCodec
  import Slugs
  import CommandLine

  datatype WireTrack = WireTrack(id: nat, slug: string, category: string, text: string)

  const OPEN := "{\"tracks\":["
  const ID_KEY := "{\"id\":"
  const SLUG_KEY := ",\"slug\":\""
  const CATEGORY_KEY := "\",\"category\":\""
  const LABEL_KEY := "\",\"label\":\""
  const ITEM_END := "\"}"
  const CLOSE := "]}"
  const MAX_JSON_BYTES := 4096
  const MAX_LABEL := 64

  // ---- printing ----

  function Decimal(n: nat): (s: string)
    ensures s != [] && forall c :: c in s ==> CommandLine.IsDigit(c)
  {
    var digit := [('0' as int + n % 10) as char];
    if n < 10 then digit else Decimal(n / 10) + digit
  }

  lemma {:induction false} DigitsAppend(s: string, c: char, rest: string, acc: int)
    requires forall d :: d in s ==> CommandLine.IsDigit(d)
    requires CommandLine.IsDigit(c) && (rest == [] || !CommandLine.IsDigit(rest[0]))
    ensures CommandLine.DigitsValue(s + [c] + rest, acc) ==
              CommandLine.DigitsValue(s + rest, acc) * 10 + (c as int - '0' as int)
    decreases |s|
  {
    if s == [] {
      assert [] + [c] + rest == [c] + rest && ([c] + rest)[1..] == rest && [] + rest == rest;
    } else {
      assert (s + [c] + rest)[1..] == s[1..] + [c] + rest && (s + rest)[1..] == s[1..] + rest;
      assert s[0] in s && forall d :: d in s[1..] ==> d in s;
      DigitsAppend(s[1..], c, rest, acc * 10 + (s[0] as int - '0' as int));
    }
  }

  lemma {:induction false} DecimalReads(n: nat, rest: string)
    requires rest == [] || !CommandLine.IsDigit(rest[0])
    ensures CommandLine.DigitsValue(Decimal(n) + rest, 0) == n
  {
    var c := ('0' as int + n % 10) as char;
    if n < 10 {
      DigitsAppend([], c, rest, 0);
      assert [] + [c] + rest == Decimal(n) + rest && [] + rest == rest;
    } else {
      DecimalReads(n / 10, rest);
      DigitsAppend(Decimal(n / 10), c, rest, 0);
      assert Decimal(n / 10) + [c] == Decimal(n);
    }
  }

  lemma AtoiDigits(s: string)
    requires s != [] && CommandLine.IsDigit(s[0])
    ensures CommandLine.Atoi(s) == CommandLine.DigitsValue(s, 0)
  {
  }

  lemma AtoiAfter(c: char, s: string)
    ensures CommandLine.Atoi(['-'] + s) == -CommandLine.DigitsValue(s, 0)
    ensures CommandLine.Atoi(['+'] + s) == CommandLine.DigitsValue(s, 0)
    ensures c == ' ' || 9 <= c as int <= 13 ==> CommandLine.Atoi([c] + s) == CommandLine.Atoi(s)
    ensures c != ' ' && !(9 <= c as int <= 13) && c != '+' && c != '-' && !('0' <= c <= '9') ==>
              CommandLine.Atoi([c] + s) == 0
  {
    assert (['-'] + s)[1..] == s && (['+'] + s)[1..] == s && ([c] + s)[1..] == s;
  }

  /** A number is read back from its decimal form, with a sign or a blank in front, and whatever follows is ignored. */
  lemma AtoiReads(n: nat, rest: string, c: char)
    requires rest == [] || !('0' <= rest[0] <= '9')
    ensures
      var s := Decimal(n) + rest;
      && CommandLine.Atoi(s) == n && CommandLine.Atoi(['+'] + s) == n && CommandLine.Atoi(['-'] + s) + n == 0
      && (c == ' ' || 9 <= c as int <= 13 ==> CommandLine.Atoi([c] + s) == n)
      && (c != ' ' && !(9 <= c as int <= 13) && c != '+' && c != '-' && !('0' <= c <= '9') ==>
            CommandLine.Atoi([c] + s) == 0)
    ensures CommandLine.Atoi("") == 0
  {
    var s := Decimal(n) + rest;
    DecimalReads(n, rest);
    assert s[0] == Decimal(n)[0] && Decimal(n)[0] in Decimal(n);
    AtoiDigits(s);
    AtoiAfter(c, s);
  }

  /** --bitrate n is stored as n if it is in range, and refused otherwise. */
  lemma BitrateStored(cfg: CommandLine.Config, n: nat)
    ensures CommandLine.Apply(cfg, "--bitrate", Decimal(n)) ==
              if 16 <= n <= 128 then Ok(cfg.(bitrateKbps := n)) else Err(CommandLine.BitrateOutOfRange)
  {
    AtoiReads(n, [], ' ');
    assert Decimal(n) + [] == Decimal(n);
  }

  /** One track followed by the rest of the text. */
  function Item(t: WireTrack, rest: string): string {
    ID_KEY + (Decimal(t.id)
        + (SLUG_KEY + (t.slug + (CATEGORY_KEY + (t.category + (LABEL_KEY + (t.text + (ITEM_END + rest))))))))
  }

  function Items(ts: seq<WireTrack>, rest: string): string {
    if ts == [] then rest
    else Item(ts[0], if |ts| == 1 then rest else "," + Items(ts[1..], rest))
  }

  function Print(ts: seq<WireTrack>): string {
    OPEN + Items(ts, CLOSE)
  }

  lemma ItemAppended(out: string, t: WireTrack, rest: string)
    ensures out + Item(t, rest) ==
              (out + ID_KEY + Decimal(t.id) + SLUG_KEY + t.slug + CATEGORY_KEY + t.category + LABEL_KEY + t.text
                  + ITEM_END)
              + rest
  {
    var a := out + ID_KEY;
    var b := a + Decimal(t.id);
    var c := b + SLUG_KEY;
    var d := c + t.slug;
    var e := d + CATEGORY_KEY;
    var f := e + t.category;
    var g := f + LABEL_KEY;
    var h := g + t.text;
    Regroup(h, ITEM_END, rest);
    Regroup(g, t.text, ITEM_END + rest);
    Regroup(f, LABEL_KEY, t.text + (ITEM_END + rest));
    Regroup(e, t.category, LABEL_KEY + (t.text + (ITEM_END + rest)));
    var after := t.category + (LABEL_KEY + (t.text + (ITEM_END + rest)));
    Regroup(d, CATEGORY_KEY, after);
    Regroup(c, t.slug, CATEGORY_KEY + after);
    Regroup(b, SLUG_KEY, t.slug + (CATEGORY_KEY + after));
    Regroup(a, Decimal(t.id), SLUG_KEY + (t.slug + (CATEGORY_KEY + after)));
    Regroup(out, ID_KEY, Decimal(t.id) + (SLUG_KEY + (t.slug + (CATEGORY_KEY + after))));
  }

  /** What remains to be printed when the tracks up to i are out. */
  ghost function Remaining(ts: seq<WireTrack>, i: nat): string
    requires i <= |ts|
  {
    if 0 < i < |ts| then "," + Items(ts[i..], CLOSE) else Items(ts[i..], CLOSE)
  }

  lemma RemainingStep(ts: seq<WireTrack>, i: nat)
    requires i < |ts|
    ensures Items(ts[i..], CLOSE) == Item(ts[i], Remaining(ts, i + 1))
  {
    assert ts[i..][1..] == ts[i + 1..];
  }

  method PrintItem(out: string, t: WireTrack) returns (r: string)
    ensures forall rest {:trigger r + rest} :: r + rest == out + Item(t, rest)
  {
    r := out + ID_KEY;
    r := r + Decimal(t.id);
    r := r + SLUG_KEY + t.slug;
    r := r + CATEGORY_KEY + t.category;
    r := r + LABEL_KEY + t.text;
    r := r + ITEM_END;
    forall rest ensures r + rest == out + Item(t, rest) {
      ItemAppended(out, t, rest);
    }
  }

  method BuildTrackListPayload(ts: seq<WireTrack>) returns (out: string)
    ensures out == Print(ts)
  {
    out := OPEN;
    for i := 0 to |ts|
      invariant out + Remaining(ts, i) == Print(ts)
    {
      RemainingStep(ts, i);
      if i > 0 {
        Regroup(out, ",", Items(ts[i..], CLOSE));
        out := out + ",";
      }
      ghost var before := out;
      out := PrintItem(out, ts[i]);
      assert out + Remaining(ts, i + 1) == before + Item(ts[i], Remaining(ts, i + 1));
    }
    assert ts[|ts|..] == [];
    out := out + CLOSE;
  }

  // ---- parsing ----

  function Eat(text: string, s: string): Option<string> {
    if text <= s then Some(s[|text|..]) else None
  }

  /** Characters that stand for themselves in a JSON string. */
  predicate IsPlain(c: char) {
    ' ' <= c <= '~' && c != '"' && c != '\\'
  }

  predicate AllPlain(s: string) {
    forall c :: c in s ==> IsPlain(c)
  }

  /** The characters up to the closing quote, which is left. */
  function ParseString(s: string): Option<(string, string)> {
    if s == [] then None
    else if s[0] == '"' then Some(([], s))
    else if !IsPlain(s[0]) then None
    else
      match ParseString(s[1..])
      case None => None
      case Some((text, rest)) => Some(([s[0]] + text, rest))
  }

  /** The run of digits at the front. */
  function DigitRun(s: string): (n: nat)
    ensures n <= |s|
  {
    if s == [] || !CommandLine.IsDigit(s[0]) then 0 else 1 + DigitRun(s[1..])
  }

  /** A JSON integer: digits without a superfluous zero in front. */
  function ParseNumber(s: string): Option<(nat, string)> {
    var n := DigitRun(s);
    if n == 0 || (n > 1 && s[0] == '0') then None
    else
      var v := CommandLine.DigitsValue(s[..n], 0);
      if v < 0 then None else Some((v, s[n..]))
  }

  /** Reads a fixed text and then a string up to its quote. */
  function ParseField(key: string, s: string): Option<(string, string)> {
    match Eat(key, s)
    case None => None
    case Some(rest) => ParseString(rest)
  }

  function ParseItem(s: string): Option<(WireTrack, string)> {
    match Eat(ID_KEY, s)
    case None => None
    case Some(s1) =>
      match ParseNumber(s1)
      case None => None
      case Some((id, s2)) =>
        match ParseField(SLUG_KEY, s2)
        case None => None
        case Some((slug, s3)) =>
          match ParseField(CATEGORY_KEY, s3)
          case None => None
          case Some((category, s4)) =>
            match ParseField(LABEL_KEY, s4)
            case None => None
            case Some((text, s5)) =>
              match Eat(ITEM_END, s5)
              case None => None
              case Some(rest) => Some((WireTrack(id, slug, category, text), rest))
  }

  function ParseItems(s: string): Option<(seq<WireTrack>, string)>
    decreases |s|
  {
    match ParseItem(s)
    case None => None
    case Some((t, rest)) =>
      if rest != [] && rest[0] == ',' && |rest| <= |s| then
        match ParseItems(rest[1..])
        case None => None
        case Some((ts, end)) => Some(([t] + ts, end))
      else Some(([t], rest))
  }

  function ParseTrackList(s: string): Option<seq<WireTrack>> {
    match Eat(OPEN, s)
    case None => None
    case Some(inner) =>
      if inner == CLOSE then Some([])
      else
        match ParseItems(inner)
        case None => None
        case Some((ts, rest)) => if rest == CLOSE then Some(ts) else None
  }

  // ---- the parser reads what the printer wrote ----

  lemma EatOwn(text: string, rest: string)
    ensures Eat(text, text + rest) == Some(rest)
  {
    assert (text + rest)[|text|..] == rest;
  }

  lemma {:induction false} StringParses(text: string, rest: string)
    requires AllPlain(text) && rest != [] && rest[0] == '"'
    ensures ParseString(text + rest) == Some((text, rest))
  {
    if text == [] {
      assert text + rest == rest;
    } else {
      assert text[0] in text && forall c :: c in text[1..] ==> c in text;
      assert (text + rest)[1..] == text[1..] + rest;
      StringParses(text[1..], rest);
      assert text == [text[0]] + text[1..];
    }
  }

  lemma FieldParses(key: string, text: string, rest: string)
    requires AllPlain(text) && rest != [] && rest[0] == '"'
    ensures ParseField(key, key + (text + rest)) == Some((text, rest))
  {
    EatOwn(key, text + rest);
    StringParses(text, rest);
  }

  lemma {:induction false} DigitsRun(s: string, rest: string)
    requires (forall c :: c in s ==> CommandLine.IsDigit(c)) && (rest == [] || !CommandLine.IsDigit(rest[0]))
    ensures DigitRun(s + rest) == |s|
  {
    if s == [] {
      assert s + rest == rest;
    } else {
      assert s[0] in s && forall c :: c in s[1..] ==> c in s;
      assert (s + rest)[1..] == s[1..] + rest;
      DigitsRun(s[1..], rest);
    }
  }

  lemma {:induction false} NoLeadingZero(n: nat)
    ensures Decimal(n)[0] == '0' ==> n == 0 && |Decimal(n)| == 1
  {
    if n >= 10 {
      NoLeadingZero(n / 10);
    }
  }

  /** Any number is read back as printed; a superfluous zero in front, or no digit at all, is not a number. */
  lemma NumberParses(n: nat, rest: string)
    requires rest == [] || !('0' <= rest[0] <= '9')
    ensures ParseNumber(Decimal(n) + rest) == Some((n, rest)) && ParseNumber(rest) == None
    ensures ParseNumber("0" + (Decimal(n) + rest)) == None
  {
    var s := Decimal(n) + rest;
    DigitsRun(Decimal(n), rest);
    NoLeadingZero(n);
    DecimalReads(n, []);
    assert s[..|Decimal(n)|] == Decimal(n) == Decimal(n) + [] && s[|Decimal(n)|..] == rest && s[0] == Decimal(n)[0];
    assert ("0" + s)[1..] == s;
  }

  predicate Printable(t: WireTrack) {
    AllPlain(t.slug) && AllPlain(t.category) && AllPlain(t.text)
  }

  lemma ItemParses(t: WireTrack, rest: string)
    requires Printable(t)
    ensures ParseItem(Item(t, rest)) == Some((t, rest))
  {
    var s5 := ITEM_END + rest;
    var s4 := LABEL_KEY + (t.text + s5);
    var s3 := CATEGORY_KEY + (t.category + s4);
    var s2 := SLUG_KEY + (t.slug + s3);
    EatOwn(ID_KEY, Decimal(t.id) + s2);
    NumberParses(t.id, s2);
    FieldParses(SLUG_KEY, t.slug, s3);
    FieldParses(CATEGORY_KEY, t.category, s4);
    FieldParses(LABEL_KEY, t.text, s5);
    EatOwn(ITEM_END, rest);
  }

  ghost predicate AllPrintable(ts: seq<WireTrack>) {
    forall t :: t in ts ==> Printable(t)
  }

  lemma ItemIsLonger(t: WireTrack, rest: string)
    ensures |Item(t, rest)| == 42 + |Decimal(t.id)| + |t.slug| + |t.category| + |t.text| + |rest|
  {
  }

  lemma ParseItemsMore(s: string, t: WireTrack, more: string, ts: seq<WireTrack>, end: string)
    requires ParseItem(s) == Some((t, "," + more)) && |more| < |s|
    requires ParseItems(more) == Some((ts, end))
    ensures ParseItems(s) == Some(([t] + ts, end))
  {
    assert ("," + more)[1..] == more;
  }

  lemma ParseItemsLast(s: string, t: WireTrack)
    requires ParseItem(s) == Some((t, CLOSE))
    ensures ParseItems(s) == Some(([t], CLOSE))
  {
  }

  lemma {:induction false} ItemsParse(ts: seq<WireTrack>)
    requires ts != [] && AllPrintable(ts)
    ensures ParseItems(Items(ts, CLOSE)) == Some((ts, CLOSE))
  {
    assert ts[0] in ts && ts == [ts[0]] + ts[1..];
    if |ts| == 1 {
      assert ts == [ts[0]];
      ItemParses(ts[0], CLOSE);
      ParseItemsLast(Items(ts, CLOSE), ts[0]);
    } else {
      var more := Items(ts[1..], CLOSE);
      assert forall t :: t in ts[1..] ==> t in ts;
      ItemsParse(ts[1..]);
      ItemParses(ts[0], "," + more);
      ItemIsLonger(ts[0], "," + more);
      ParseItemsMore(Items(ts, CLOSE), ts[0], more, ts[1..], CLOSE);
    }
  }

  /** Printing then parsing gives the tracks back, in order. */
  lemma ParsePrint(ts: seq<WireTrack>)
    requires AllPrintable(ts)
    ensures ParseTrackList(Print(ts)) == Some(ts)
  {
    EatOwn(OPEN, Items(ts, CLOSE));
    if ts != [] {
      ItemsParse(ts);
      ItemsIsLong(ts);
    }
  }

  lemma ItemsIsLong(ts: seq<WireTrack>)
    requires ts != []
    ensures |Items(ts, CLOSE)| > |CLOSE|
  {
    ItemIsLonger(ts[0], if |ts| == 1 then CLOSE else "," + Items(ts[1..], CLOSE));
  }

  // ---- what the parser can give ----

  lemma {:induction false} ParsedStringIsPlain(s: string)
    ensures ParseString(s).Some? ==> AllPlain(ParseString(s).value.0)
  {
    if s != [] && s[0] != '"' && IsPlain(s[0]) {
      ParsedStringIsPlain(s[1..]);
    }
  }

  lemma ParsedItemIsPlain(s: string)
    ensures ParseItem(s).Some? ==> AllPlain(ParseItem(s).value.0.text)
  {
    forall field: string
      ensures ParseString(field).Some? ==> AllPlain(ParseString(field).value.0)
    {
      ParsedStringIsPlain(field);
    }
  }

  lemma {:induction false} ParsedItemsArePlain(s: string)
    ensures ParseItems(s).Some? ==> forall t :: t in ParseItems(s).value.0 ==> AllPlain(t.text)
    decreases |s|
  {
    ParsedItemIsPlain(s);
    match ParseItem(s)
    case None =>
    case Some((_, rest)) =>
      if rest != [] && rest[0] == ',' && |rest| <= |s| {
        ParsedItemsArePlain(rest[1..]);
      }
  }

  /** No label with a quote, a backslash or a control character ever comes out. */
  lemma ParsedIsPlain(s: string)
    ensures ParseTrackList(s).Some? ==> forall t :: t in ParseTrackList(s).value ==> AllPlain(t.text)
  {
    if OPEN <= s {
      ParsedItemsArePlain(s[|OPEN|..]);
    }
  }

  // ---- what is printed is ASCII ----

  predicate IsAscii(s: string) {
    forall i :: 0 <= i < |s| ==> s[i] < 128 as char
  }

  lemma AsciiConcat(a: string, b: string)
    requires IsAscii(a) && IsAscii(b)
    ensures IsAscii(a + b)
  {
  }

  lemma AsciiKeys()
    ensures IsAscii(OPEN) && IsAscii(ID_KEY) && IsAscii(SLUG_KEY) && IsAscii(CATEGORY_KEY)
    ensures IsAscii(LABEL_KEY) && IsAscii(ITEM_END) && IsAscii(CLOSE)
  {
  }

  lemma PlainIsAscii(s: string)
    requires AllPlain(s) || forall c :: c in s ==> CommandLine.IsDigit(c)
    ensures IsAscii(s)
  {
    assert forall i :: 0 <= i < |s| ==> s[i] in s;
  }

  lemma AsciiItem(t: WireTrack, rest: string)
    requires Printable(t) && IsAscii(rest)
    ensures IsAscii(Item(t, rest))
  {
    AsciiKeys();
    PlainIsAscii(Decimal(t.id));
    PlainIsAscii(t.slug);
    PlainIsAscii(t.category);
    PlainIsAscii(t.text);
    var s5 := ITEM_END + rest;
    var s4 := LABEL_KEY + (t.text + s5);
    var s3 := CATEGORY_KEY + (t.category + s4);
    var s2 := SLUG_KEY + (t.slug + s3);
    AsciiConcat(ITEM_END, rest);
    AsciiField(LABEL_KEY, t.text, s5);
    AsciiField(CATEGORY_KEY, t.category, s4);
    AsciiField(SLUG_KEY, t.slug, s3);
    AsciiField(ID_KEY, Decimal(t.id), s2);
  }

  lemma AsciiField(key: string, text: string, rest: string)
    requires IsAscii(key) && IsAscii(text) && IsAscii(rest)
    ensures IsAscii(key + (text + rest))
  {
    AsciiConcat(text, rest);
    AsciiConcat(key, text + rest);
  }

  lemma {:induction false} AsciiItems(ts: seq<WireTrack>)
    requires AllPrintable(ts)
    ensures IsAscii(Items(ts, CLOSE))
  {
    AsciiKeys();
    if ts != [] {
      assert ts[0] in ts && forall t :: t in ts[1..] ==> t in ts;
      AsciiItems(ts[1..]);
      AsciiItem(ts[0], if |ts| == 1 then CLOSE else "," + Items(ts[1..], CLOSE));
    }
  }

  /** So the text survives the way through bytes. */
  lemma PrintAsBytes(ts: seq<WireTrack>)
    requires AllPrintable(ts)
    ensures AsText(AsBytes(Print(ts))) == Print(ts)
  {
    AsciiKeys();
    AsciiItems(ts);
    AsciiConcat(OPEN, Items(ts, CLOSE));
    TextOfBytes(Print(ts));
  }

  // ---- validation ----

  ghost predicate TrackOk(t: WireTrack) {
    && 1 <= t.id <= FrameCodec.MAX_TRACK_SLOT && Slugs.ValidSlug(t.slug)
    && CommandLine.IsCategory(t.category) && |t.text| <= MAX_LABEL
  }

  ghost predicate ListOk(ts: seq<WireTrack>) {
    && |ts| <= FrameCodec.MAX_TRACK_SLOT
    && (forall k :: 0 <= k < |ts| ==> TrackOk(ts[k]))
    && (forall i, j :: 0 <= i < j < |ts| ==> ts[i].id != ts[j].id)
  }

  /** The decoder: size, shape, then content. */
  ghost function Decode(buf: string): Result<seq<WireTrack>, FrameCodec.Kind> {
    if |buf| > MAX_JSON_BYTES then Err(FrameCodec.TooLarge)
    else
      match ParseTrackList(buf)
      case None => Err(FrameCodec.BadPayload)
      case Some(ts) => if ListOk(ts) then Ok(ts) else Err(FrameCodec.BadPayload)
  }

  method DecodeTrackList(buf: string) returns (r: Result<seq<WireTrack>, FrameCodec.Kind>)
    ensures r == Decode(buf)
  {
    if |buf| > MAX_JSON_BYTES {
      return Err(FrameCodec.TooLarge);
    }
    var parsed := ParseTrackList(buf);
    if parsed == None {
      return Err(FrameCodec.BadPayload);
    }
    var ok := Validate(parsed.value);
    return if ok then Ok(parsed.value) else Err(FrameCodec.BadPayload);
  }

  method Validate(ts: seq<WireTrack>) returns (ok: bool)
    ensures ok <==> ListOk(ts)
  {
    if |ts| > FrameCodec.MAX_TRACK_SLOT {
      return false;
    }
    var seen: set<nat> := {};
    for i := 0 to |ts|
      invariant forall k :: 0 <= k < i ==> TrackOk(ts[k]) && ts[k].id in seen
      invariant forall id :: id in seen ==> exists k :: 0 <= k < i && ts[k].id == id
      invariant forall k, l :: 0 <= k < l < i ==> ts[k].id != ts[l].id
    {
      var t := ts[i];
      if t.id < 1 || t.id > FrameCodec.MAX_TRACK_SLOT || t.id in seen {
        return false;
      }
      seen := seen + {t.id};
      var slugOk := Slugs.IsValidSlug(t.slug);
      if |t.slug| > 64 || !slugOk || !CommandLine.IsCategory(t.category) || |t.text| > MAX_LABEL {
        return false;
      }
    }
    return true;
  }

  /** The viewer's decoder. */
  method DecodeTrackListTs(buf: string) returns (r: Result<seq<WireTrack>, FrameCodec.Kind>)
    ensures r == Decode(buf)
  {
    if |buf| > MAX_JSON_BYTES {
      return Err(FrameCodec.TooLarge);
    }
    var parsed := ParseTrackList(buf);
    if parsed == None {
      return Err(FrameCodec.BadPayload);
    }
    var tracks := CollectTracks(parsed.value);
    return if tracks == None then Err(FrameCodec.BadPayload) else Ok(tracks.value);
  }

  /** Its checks, in its own order, on the list that it builds as it goes. */
  method CollectTracks(raw: seq<WireTrack>) returns (r: Option<seq<WireTrack>>)
    ensures r == if ListOk(raw) then Some(raw) else None
  {
    if |raw| > FrameCodec.MAX_TRACK_SLOT {
      return None;
    }
    var tracks: seq<WireTrack>, seen: set<nat> := [], {};
    for i := 0 to |raw|
      invariant tracks == raw[..i]
      invariant forall k :: 0 <= k < i ==> TrackOk(raw[k]) && raw[k].id in seen
      invariant forall id :: id in seen ==> exists k :: 0 <= k < i && raw[k].id == id
      invariant forall k, l :: 0 <= k < l < i ==> raw[k].id != raw[l].id
    {
      var t := raw[i];
      if t.id < 1 || t.id > FrameCodec.MAX_TRACK_SLOT {
        return None;
      }
      if t.id in seen {
        return None;
      }
      seen := seen + {t.id};
      var slugOk := Slugs.IsValidSlug(t.slug);
      if |t.slug| > 64 || !slugOk {
        return None;
      }
      CategoryIsShort(t.category);
      if |t.category| > 32 || !CommandLine.IsCategory(t.category) {
        return None;
      }
      if |t.text| > MAX_LABEL {
        return None;
      }
      tracks := tracks + [t];
    }
    assert raw[..|raw|] == raw;
    return Some(tracks);
  }

  lemma CategoryIsShort(c: string)
    ensures CommandLine.IsCategory(c) ==> |c| <= 13
  {
  }

  lemma PrintedDecodes(ts: seq<WireTrack>)
    requires AllPrintable(ts)
    ensures ListOk(ts) && |Print(ts)| <= MAX_JSON_BYTES ==> Decode(Print(ts)) == Ok(ts)
    ensures !ListOk(ts) ==> Decode(Print(ts)).Err?
  {
    ParsePrint(ts);
  }

  lemma CategoriesAre(c: string)
    ensures CommandLine.IsCategory(c) <==>
            c == "custom" || c in ["mic", "game", "music", "voicechat", "notifications", "browser", "alerts", "tts"]
  {
  }

  /**
   Of what can be printed, the decoders accept exactly lists of at most eight tracks with different
   ids from 1 to 8, valid slugs, known categories and labels of at most 64 characters.
   */
  lemma PrintedAcceptedIff(ts: seq<WireTrack>)
    requires AllPrintable(ts)
    ensures |Print(ts)| > 4096 ==> Decode(Print(ts)) == Err(FrameCodec.TooLarge)
    ensures |Print(ts)| <= 4096 ==>
              (Decode(Print(ts)) == Ok(ts) <==>
                 && |ts| <= 8 && (forall i, j :: 0 <= i < j < |ts| ==> ts[i].id != ts[j].id)
                 && forall t :: t in ts ==>
                      && 1 <= t.id <= 8 && |t.slug| <= 64 && Slugs.Matches(t.slug) && |t.text| <= 64
                      && CommandLine.IsCategory(t.category))
    ensures |Print(ts)| <= 4096 && Decode(Print(ts)) != Ok(ts) ==> Decode(Print(ts)) == Err(FrameCodec.BadPayload)
  {
    ParsePrint(ts);
    forall t | Slugs.Matches(t) ensures t != "" {
      Slugs.SlugFixesMatches(t);
      Slugs.ScansIffMatches(t);
    }
  }

  lemma PrintTwo(t: WireTrack, u: WireTrack)
    ensures Print([t, u]) == OPEN + Item(t, "," + Item(u, CLOSE))
  {
    assert [t, u][1..] == [u];
    assert Items([u], CLOSE) == Item(u, CLOSE);
  }

  /** The text of a list of two tracks, in full. */
  lemma PrintedText(t: WireTrack, u: WireTrack)
    ensures Print([t, u]) ==
              "{\"tracks\":[" + "{\"id\":" + Decimal(t.id) + ",\"slug\":\"" + t.slug
              + "\",\"category\":\"" + t.category + "\",\"label\":\"" + t.text + "\"}"
              + "," + "{\"id\":" + Decimal(u.id) + ",\"slug\":\"" + u.slug
              + "\",\"category\":\"" + u.category + "\",\"label\":\"" + u.text + "\"}" + "]}"
  {
    var first := OPEN + ID_KEY + Decimal(t.id) + SLUG_KEY + t.slug + CATEGORY_KEY + t.category + LABEL_KEY + t.text
                 + ITEM_END;
    PrintTwo(t, u);
    ItemAppended(OPEN, t, "," + Item(u, CLOSE));
    Regroup(first, ",", Item(u, CLOSE));
    ItemAppended(first + ",", u, CLOSE);
  }
}
