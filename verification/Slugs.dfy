/**
 The slug language: words of lower-case letters and digits joined by single dashes. One definition
 by words stands for the regular expression; the hand-written scanner and the two label-to-slug
 loops are proved against it.
 */
module Slugs {

  const MAX_SLUG := 64

  predicate IsWordChar(c: char) {
    'a' <= c <= 'z' || '0' <= c <= '9'
  }

  predicate IsWord(w: string) {
    w != [] && forall c :: c in w ==> IsWordChar(c)
  }

  predicate AllWords(ws: seq<string>) {
    forall w :: w in ws ==> IsWord(w)
  }

  /** The words with a dash between any two. */
  function Join(ws: seq<string>): string {
    if ws == [] then ""
    else if |ws| == 1 then ws[0]
    else Join(ws[..|ws| - 1]) + "-" + ws[|ws| - 1]
  }

  /** The regular expression `^[a-z0-9]+(?:-[a-z0-9]+)*$`. */
  ghost predicate Matches(s: string) {
    exists ws :: ws != [] && AllWords(ws) && s == Join(ws)
  }

  ghost predicate ValidSlug(s: string) {
    1 <= |s| <= MAX_SLUG && Matches(s)
  }

  predicate EndsInWord(s: string) {
    s != [] && IsWordChar(s[|s| - 1])
  }

  /** The maximal runs of word characters. */
  function Words(s: string): (ws: seq<string>)
    ensures AllWords(ws)
    ensures EndsInWord(s) ==> ws != []
  {
    if s == [] then []
    else
      var before, c := s[..|s| - 1], s[|s| - 1];
      if !IsWordChar(c) then Words(before)
      else if EndsInWord(before) then ExtendLast(Words(before), c)
      else Words(before) + [[c]]
  }

  function ExtendLast(ws: seq<string>, c: char): (extended: seq<string>)
    requires ws != []
    ensures AllWords(ws) && IsWordChar(c) ==> AllWords(extended)
  {
    assert forall w :: w in ws[..|ws| - 1] ==> w in ws;
    assert ws[|ws| - 1] in ws;
    ws[..|ws| - 1] + [ws[|ws| - 1] + [c]]
  }

  function LowerChar(c: char): char {
    if 'A' <= c <= 'Z' then (c as int + ('a' as int - 'A' as int)) as char else c
  }

  /** ASCII lower case. */
  function Lower(s: string): (l: string)
    ensures |l| == |s| && forall i :: 0 <= i < |s| ==> l[i] == LowerChar(s[i])
  {
    seq(|s|, i requires 0 <= i < |s| => LowerChar(s[i]))
  }

  /** Lower case, split into maximal runs of word characters, joined with dashes. */
  function Slug(text: string): string {
    Join(Words(Lower(text)))
  }

  // ---- words and joins ----

  lemma {:induction false} JoinEnds(ws: seq<string>)
    requires ws != [] && AllWords(ws)
    ensures Join(ws) != [] && IsWordChar(Join(ws)[0]) && EndsInWord(Join(ws))
  {
    assert ws[|ws| - 1] in ws;
    if |ws| > 1 {
      assert forall w :: w in ws[..|ws| - 1] ==> w in ws;
      JoinEnds(ws[..|ws| - 1]);
    }
  }

  lemma JoinAppend(ws: seq<string>, w: string)
    ensures Join(ws + [w]) == if ws == [] then w else Join(ws) + "-" + w
  {
    assert (ws + [w])[..|ws|] == ws;
  }

  lemma JoinExtendLast(ws: seq<string>, c: char)
    requires ws != []
    ensures Join(ExtendLast(ws, c)) == Join(ws) + [c]
  {
    var init, w := ws[..|ws| - 1], ws[|ws| - 1];
    assert ws == init + [w];
    JoinAppend(init, w);
    JoinAppend(init, w + [c]);
    assert Join(init) + "-" + (w + [c]) == (Join(init) + "-" + w) + [c];
  }

  /** What one more character does to the words. */
  lemma WordsStep(s: string, c: char)
    ensures Words(s + [c]) ==
              if !IsWordChar(c) then Words(s) else if EndsInWord(s) then ExtendLast(Words(s), c) else Words(s) + [[c]]
  {
    assert (s + [c])[..|s|] == s;
  }

  lemma {:induction false} WordsAppendWord(s: string, w: string)
    requires IsWord(w) && !EndsInWord(s)
    ensures Words(s + w) == Words(s) + [w] && EndsInWord(s + w)
    decreases |w|
  {
    var init, c := w[..|w| - 1], w[|w| - 1];
    assert c in w && w == init + [c] && s + w == (s + init) + [c];
    WordsStep(s + init, c);
    if init == [] {
      assert s + init == s;
    } else {
      assert forall d :: d in init ==> d in w;
      WordsAppendWord(s, init);
      LastExtended(Words(s), init, c);
    }
  }

  lemma LastExtended(ws: seq<string>, w: string, c: char)
    ensures ExtendLast(ws + [w], c) == ws + [w + [c]]
  {
    assert (ws + [w])[..|ws|] == ws;
  }

  /** Splitting undoes joining. */
  lemma {:induction false} WordsOfJoin(ws: seq<string>)
    requires AllWords(ws)
    ensures Words(Join(ws)) == ws
  {
    if ws != [] {
      var init, w := ws[..|ws| - 1], ws[|ws| - 1];
      assert w in ws && forall v :: v in init ==> v in ws;
      assert ws == init + [w];
      JoinAppend(init, w);
      if init == [] {
        WordsAppendWord("", w);
        assert "" + w == w;
      } else {
        WordsOfJoin(init);
        WordsStep(Join(init), '-');
        WordsAppendWord(Join(init) + "-", w);
      }
    }
  }

  lemma {:induction false} JoinChars(ws: seq<string>)
    requires AllWords(ws)
    ensures forall c :: c in Join(ws) ==> IsWordChar(c) || c == '-'
  {
    if ws != [] {
      assert ws[|ws| - 1] in ws;
      if |ws| > 1 {
        assert forall w :: w in ws[..|ws| - 1] ==> w in ws;
        JoinChars(ws[..|ws| - 1]);
      }
    }
  }

  lemma LowerFixes(s: string)
    requires forall c :: c in s ==> IsWordChar(c) || c == '-'
    ensures Lower(s) == s
  {
    forall i | 0 <= i < |s| ensures LowerChar(s[i]) == s[i] {
      assert s[i] in s;
    }
  }

  // ---- the slug function ----

  /** Any text: the slug is empty, exactly when there is no letter or digit, or it is in the language. */
  lemma SlugIsEmptyOrMatches(text: string)
    ensures Slug(text) == "" <==> forall c :: c in text ==> !IsWordChar(LowerChar(c))
    ensures Slug(text) == "" || Matches(Slug(text))
  {
    var ws := Words(Lower(text));
    if ws != [] {
      JoinEnds(ws);
    }
    NoWords(Lower(text));
    forall c | c in text ensures LowerChar(c) in Lower(text) {
      var i :| 0 <= i < |text| && text[i] == c;
      assert Lower(text)[i] == LowerChar(c);
    }
    forall d | d in Lower(text) ensures exists c :: c in text && d == LowerChar(c) {
      var i :| 0 <= i < |text| && Lower(text)[i] == d;
      assert text[i] in text;
    }
  }

  /** A letter or digit of ASCII. */
  predicate IsAlphanumeric(c: char) {
    'a' <= c <= 'z' || 'A' <= c <= 'Z' || '0' <= c <= '9'
  }

  /**
   The slug of a label, letter by letter: capitals become small letters, and everything but letters
   and digits only separates, by one dash and only between two of them.
   */
  lemma SlugLetterByLetter(text: string, c: char)
    ensures Slug("") == ""
    ensures !IsAlphanumeric(c) ==> Slug(text + [c]) == Slug(text)
    ensures IsAlphanumeric(c) ==>
              var small := if 'A' <= c <= 'Z' then (c as int + 32) as char else c;
              Slug(text + [c]) ==
              if Slug(text) == "" || IsAlphanumeric(text[|text| - 1]) then Slug(text) + [small]
              else Slug(text) + "-" + [small]
  {
    assert Lower(text + [c]) == Lower(text) + [LowerChar(c)] && Lower("") == "";
    assert EndsInWord(Lower(text)) <==> text != [] && IsAlphanumeric(text[|text| - 1]);
    if IsAlphanumeric(c) {
      JoinedGrows(Lower(text), LowerChar(c));
    } else {
      WordsStep(Lower(text), LowerChar(c));
    }
  }

  lemma JoinedGrows(s: string, c: char)
    requires IsWordChar(c)
    ensures
      var joined := Join(Words(s));
      Join(Words(s + [c])) == if joined == "" || EndsInWord(s) then joined + [c] else joined + "-" + [c]
  {
    var ws := Words(s);
    WordsStep(s, c);
    if ws == [] {
      JoinAppend(ws, [c]);
    } else {
      JoinEnds(ws);
      if EndsInWord(s) {
        JoinExtendLast(ws, c);
      } else {
        JoinAppend(ws, [c]);
      }
    }
  }

  lemma {:induction false} NoWords(s: string)
    ensures Words(s) == [] <==> forall c :: c in s ==> !IsWordChar(c)
  {
    if s != [] {
      var before, c := s[..|s| - 1], s[|s| - 1];
      assert s == before + [c];
      NoWords(before);
    }
  }

  /** A slug is no longer than its text. */
  lemma {:induction false} JoinedWordsFit(s: string)
    ensures |Join(Words(s))| + (if Words(s) != [] && !EndsInWord(s) then 1 else 0) <= |s|
  {
    if s != [] {
      var before, c := s[..|s| - 1], s[|s| - 1];
      assert s == before + [c];
      JoinedWordsFit(before);
      WordsStep(before, c);
      if IsWordChar(c) {
        if EndsInWord(before) {
          JoinExtendLast(Words(before), c);
        } else {
          JoinAppend(Words(before), [c]);
        }
      }
    }
  }

  /** Every valid slug is its own slug, so the function is idempotent. */
  lemma SlugFixesMatches(s: string)
    requires Matches(s)
    ensures Slug(s) == s
  {
    var ws :| ws != [] && AllWords(ws) && s == Join(ws);
    JoinChars(ws);
    LowerFixes(s);
    WordsOfJoin(ws);
  }

  lemma SlugIsIdempotent(text: string)
    ensures Slug(Slug(text)) == Slug(text)
  {
    SlugIsEmptyOrMatches(text);
    if Slug(text) != "" {
      SlugFixesMatches(Slug(text));
    }
  }

  // ---- the scanner ----

  /** What the scanner looks for: only word characters and dashes, no dash at an end, no two in a row. */
  predicate Scans(s: string) {
    && (forall i :: 0 <= i < |s| ==> IsWordChar(s[i]) || s[i] == '-')
    && (forall i, j :: 0 <= i < |s| && j == i + 1 < |s| ==> s[i] != '-' || s[j] != '-')
    && s != [] && s[0] != '-' && s[|s| - 1] != '-'
  }

  lemma {:induction false} ScannedIsJoin(s: string, n: nat)
    requires n <= |s|
    requires forall i :: 0 <= i < |s| ==> IsWordChar(s[i]) || s[i] == '-'
    requires forall i, j :: 0 <= i < |s| && j == i + 1 < |s| ==> s[i] != '-' || s[j] != '-'
    requires s == [] || s[0] != '-'
    ensures s[..n] == Join(Words(s[..n])) + if n > 0 && s[n - 1] == '-' then "-" else ""
    ensures n > 0 ==> Words(s[..n]) != []
  {
    if n > 0 {
      ScannedIsJoin(s, n - 1);
      assert s[..n] == s[..n - 1] + [s[n - 1]];
      ScanStep(s[..n - 1], s[n - 1]);
    }
  }

  predicate EndsInDash(s: string) {
    s != [] && s[|s| - 1] == '-'
  }

  lemma ScanStep(before: string, c: char)
    requires before == Join(Words(before)) + if EndsInDash(before) then "-" else ""
    requires before != [] ==> Words(before) != [] && (EndsInWord(before) || EndsInDash(before))
    requires if c == '-' then EndsInWord(before) else IsWordChar(c)
    ensures Words(before + [c]) != []
    ensures before + [c] == Join(Words(before + [c])) + if c == '-' then "-" else ""
  {
    WordsStep(before, c);
    if c != '-' {
      if before != [] {
        JoinEnds(Words(before));
      }
      JoinedGrows(before, c);
    }
  }

  lemma {:induction false} JoinScans(ws: seq<string>)
    requires ws != [] && AllWords(ws)
    ensures Scans(Join(ws))
  {
    var init, w := ws[..|ws| - 1], ws[|ws| - 1];
    assert ws == init + [w] && w in ws;
    JoinAppend(init, w);
    WordScans(w);
    if init != [] {
      assert forall v :: v in init ==> v in ws;
      JoinScans(init);
      DashScans(Join(init), w);
    }
  }

  lemma WordScans(w: string)
    requires IsWord(w)
    ensures Scans(w) && forall i :: 0 <= i < |w| ==> w[i] != '-'
  {
    WordHasNoDash(w);
    assert forall i :: 0 <= i < |w| ==> w[i] in w;
  }

  lemma DashScans(s: string, w: string)
    requires Scans(s) && Scans(w)
    ensures Scans(s + "-" + w)
  {
  }

  lemma WordHasNoDash(w: string)
    requires IsWord(w)
    ensures forall i :: 0 <= i < |w| ==> w[i] != '-'
  {
    assert forall i :: 0 <= i < |w| ==> w[i] in w;
  }

  /** The scanner's conditions are exactly the regular expression. */
  lemma ScansIffMatches(s: string)
    ensures Scans(s) <==> Matches(s)
  {
    if Scans(s) {
      ScannedIsJoin(s, |s|);
      assert s[..|s|] == s;
    }
    if Matches(s) {
      var ws :| ws != [] && AllWords(ws) && s == Join(ws);
      JoinScans(ws);
    }
  }

  /** The C++ scanner. */
  method IsValidSlug(s: string) returns (ok: bool)
    ensures ok <==> ValidSlug(s)
  {
    ScansIffMatches(s);
    if s == [] || |s| > MAX_SLUG {
      return false;
    }
    if s[0] == '-' || s[|s| - 1] == '-' {
      return false;
    }
    var prevDash := false;
    for i := 0 to |s|
      invariant prevDash <==> i > 0 && s[i - 1] == '-'
      invariant forall k :: 0 <= k < i ==> IsWordChar(s[k]) || s[k] == '-'
      invariant forall k, l :: 0 <= k < i && l == k + 1 < i ==> s[k] != '-' || s[l] != '-'
    {
      if s[i] == '-' {
        if prevDash {
          assert s[i - 1] == '-';
          return false;
        }
        prevDash := true;
        continue;
      }
      prevDash := false;
      if !IsWordChar(s[i]) {
        return false;
      }
    }
    return true;
  }

  // ---- the two loops from a label to a slug ----

  /** The slug so far, with a pending dash after a separator. */
  ghost predicate Progress(done: string, slug: string, prevDash: bool) {
    && slug == Join(Words(done)) + (if prevDash then "-" else "")
    && (prevDash ==> Words(done) != [] && !EndsInWord(done))
    && (!prevDash && !EndsInWord(done) ==> Words(done) == [])
  }

  lemma ProgressWord(done: string, slug: string, prevDash: bool, c: char)
    requires Progress(done, slug, prevDash) && IsWordChar(c)
    ensures Progress(done + [c], slug + [c], false)
  {
    WordsStep(done, c);
    if EndsInWord(done) {
      JoinExtendLast(Words(done), c);
    } else {
      JoinAppend(Words(done), [c]);
    }
  }

  lemma ProgressSeparator(done: string, slug: string, prevDash: bool, c: char)
    requires Progress(done, slug, prevDash) && !IsWordChar(c)
    ensures if !prevDash && slug != []
            then Progress(done + [c], slug + "-", true)
            else Progress(done + [c], slug, prevDash)
  {
    WordsStep(done, c);
    if Words(done) != [] {
      JoinEnds(Words(done));
    }
  }

  /** The C++ loop; bytes beyond ASCII count as separators. */
  method SlugOfLabel(text: string) returns (slug: string)
    ensures slug == Slug(text)
  {
    slug := [];
    var prevDash := false;
    for i := 0 to |text|
      invariant Progress(Lower(text)[..i], slug, prevDash)
    {
      var c := text[i];
      assert Lower(text)[..i + 1] == Lower(text)[..i] + [LowerChar(c)];
      if IsWordChar(c) {
        ProgressWord(Lower(text)[..i], slug, prevDash, c);
        slug := slug + [c];
        prevDash := false;
      } else if 'A' <= c <= 'Z' {
        ProgressWord(Lower(text)[..i], slug, prevDash, LowerChar(c));
        slug := slug + [(c as int + ('a' as int - 'A' as int)) as char];
        prevDash := false;
      } else {
        ProgressSeparator(Lower(text)[..i], slug, prevDash, c);
        if !prevDash && slug != [] {
          slug := slug + "-";
          prevDash := true;
        }
      }
    }
    assert Lower(text)[..|text|] == Lower(text);
    var trimmed := TrimRight(slug);
    TrimmedIsJoin(Words(Lower(text)), prevDash, slug, trimmed);
    return trimmed;
  }

  method TrimRight(s: string) returns (t: string)
    ensures |t| <= |s| && t == s[..|t|]
    ensures t == [] || t[|t| - 1] != '-'
    ensures forall i :: |t| <= i < |s| ==> s[i] == '-'
  {
    t := s;
    while t != [] && t[|t| - 1] == '-'
      invariant |t| <= |s| && t == s[..|t|]
      invariant forall i :: |t| <= i < |s| ==> s[i] == '-'
      decreases |t|
    {
      t := t[..|t| - 1];
    }
  }

  method TrimLeft(s: string) returns (t: string)
    ensures |t| <= |s| && t == s[|s| - |t|..]
    ensures t == [] || t[0] != '-'
    ensures forall i :: 0 <= i < |s| - |t| ==> s[i] == '-'
  {
    t := s;
    while t != [] && t[0] == '-'
      invariant |t| <= |s| && t == s[|s| - |t|..]
      invariant forall i :: 0 <= i < |s| - |t| ==> s[i] == '-'
      decreases |t|
    {
      t := t[1..];
    }
  }

  lemma TrimmedIsJoin(ws: seq<string>, dash: bool, s: string, t: string)
    requires AllWords(ws) && s == Join(ws) + if dash then "-" else ""
    requires ws == [] ==> !dash
    requires |t| <= |s| && t == s[..|t|] && (t == [] || t[|t| - 1] != '-')
    requires forall i :: |t| <= i < |s| ==> s[i] == '-'
    ensures t == Join(ws)
  {
    if ws != [] {
      JoinEnds(ws);
      assert s[|Join(ws)| - 1] == Join(ws)[|Join(ws)| - 1];
    }
  }

  /** The Go loops: lower case first, then collapse, then trim both ends. For ASCII, lower case is per byte. */
  method Sluggify(text: string) returns (slug: string)
    requires forall c :: c in text ==> c < 128 as char
    ensures slug == Slug(text)
  {
    var s: string := [];
    for i := 0 to |text|
      invariant s == Lower(text)[..i]
    {
      s := s + [LowerChar(text[i])];
    }
    assert s == Lower(text);
    var out: string, prevDash := [], false;
    for i := 0 to |s|
      invariant Progress(s[..i], out, prevDash)
    {
      var c := s[i];
      assert s[..i + 1] == s[..i] + [c];
      if IsWordChar(c) {
        ProgressWord(s[..i], out, prevDash, c);
        out := out + [c];
        prevDash := false;
      } else {
        ProgressSeparator(s[..i], out, prevDash, c);
        if !prevDash && out != [] {
          out := out + "-";
          prevDash := true;
        }
      }
    }
    assert s[..|s|] == s;
    var right := TrimRight(out);
    TrimmedIsJoin(Words(s), prevDash, out, right);
    if Words(s) != [] {
      JoinEnds(Words(s));
    }
    slug := TrimLeft(right);
  }
}
