/** The publisher's command line: track specifications and the argument loop. */
module CommandLine {
  import opened Sequences
  import opened Wrappers
  import Slugs

  const CUSTOM := "custom"
  const PRESETS := ["mic", "game", "music", "voicechat", "notifications", "browser", "alerts", "tts"]
  const MAX_TRACKS := 8

  predicate IsCategory(c: string) {
    c == CUSTOM || c in PRESETS
  }

  datatype TrackSpec = TrackSpec(id: nat, slug: string, category: string, text: string, process: string)

  // ---- one track argument ----

  function UpperFirst(s: string): string {
    if s != [] && 'a' <= s[0] <= 'z' then [(s[0] as int - 32) as char] + s[1..] else s
  }

  ghost function TrackOf(arg: string): Option<TrackSpec> {
    var colon := Find(arg, ':');
    if colon == |arg| then None
    else
      var category, rest := arg[..colon], arg[colon + 1..];
      if rest == [] || !IsCategory(category) then None
      else if category != CUSTOM then Some(TrackSpec(0, category, category, UpperFirst(category), rest))
      else CustomOf(rest)
  }

  /** Label and process of a custom track. */
  ghost function CustomOf(rest: string): Option<TrackSpec> {
    var pipe := Find(rest, '|');
    if pipe == |rest| then None
    else
      var text, process := rest[..pipe], rest[pipe + 1..];
      if text == [] || process == [] || !Slugs.ValidSlug(Slugs.Slug(text)) then None
      else Some(TrackSpec(0, Slugs.Slug(text), CUSTOM, text, process))
  }

  method ParseTrackArg(arg: string) returns (r: Option<TrackSpec>)
    ensures r == TrackOf(arg)
  {
    var colon := Find(arg, ':');
    if colon == |arg| {
      return None;
    }
    var category, rest := arg[..colon], arg[colon + 1..];
    if rest == [] {
      return None;
    }
    if category != CUSTOM && category !in PRESETS {
      return None;
    }
    if category == CUSTOM {
      var pipe := Find(rest, '|');
      if pipe == |rest| {
        return None;
      }
      var text, process := rest[..pipe], rest[pipe + 1..];
      if text == [] || process == [] {
        return None;
      }
      var slug := Slugs.SlugOfLabel(text);
      var ok := Slugs.IsValidSlug(slug);
      if slug == [] || !ok {
        return None;
      }
      return Some(TrackSpec(0, slug, category, text, process));
    } else {
      return Some(TrackSpec(0, category, category, UpperFirst(category), rest));
    }
  }

  /** The three parts of a custom track argument. */
  ghost function CustomArg(text: string, process: string): string {
    CUSTOM + [':'] + (text + ['|'] + process)
  }

  /** A custom track written as its parts is accepted exactly when the label has a slug of at most 64 characters. */
  lemma CustomTrackIff(text: string, process: string)
    requires text != [] && process != [] && '|' !in text
    ensures TrackOf(CustomArg(text, process)) ==
              if 1 <= |Slugs.Slug(text)| <= Slugs.MAX_SLUG
              then Some(TrackSpec(0, Slugs.Slug(text), CUSTOM, text, process))
              else None
  {
    CustomParts(text, process);
    CustomOfParts(text, process);
    Slugs.SlugIsEmptyOrMatches(text);
  }

  lemma CustomOfParts(text: string, process: string)
    requires text != [] && process != [] && '|' !in text
    ensures CustomOf(text + ['|'] + process) ==
              if Slugs.ValidSlug(Slugs.Slug(text))
              then Some(TrackSpec(0, Slugs.Slug(text), CUSTOM, text, process))
              else None
  {
    FindFirst(text, '|', process);
  }

  lemma CustomParts(text: string, process: string)
    ensures
      var arg := CustomArg(text, process);
      var k := Find(arg, ':');
      k < |arg| && arg[..k] == CUSTOM && arg[k + 1..] == text + ['|'] + process
  {
    FindFirst(CUSTOM, ':', text + ['|'] + process);
  }

  /** A preset track written as its parts: that process, under the preset's own slug and its name with a capital. */
  lemma PresetTrack(i: nat, process: string)
    requires i < 8 && process != []
    ensures
      var name := ["mic", "game", "music", "voicechat", "notifications", "browser", "alerts", "tts"][i];
      var text := ["Mic", "Game", "Music", "Voicechat", "Notifications", "Browser", "Alerts", "Tts"][i];
      TrackOf(name + [':'] + process) == Some(TrackSpec(0, name, name, text, process))
  {
    var name := ["mic", "game", "music", "voicechat", "notifications", "browser", "alerts", "tts"][i];
    assert name == PRESETS[i];
    PresetIsWord(name);
    PresetText(i);
    TrackOfPreset(name, process);
  }

  lemma TrackOfPreset(name: string, process: string)
    requires name in PRESETS && ':' !in name && name != CUSTOM && process != []
    ensures TrackOf(name + [':'] + process) == Some(TrackSpec(0, name, name, UpperFirst(name), process))
  {
    FindFirst(name, ':', process);
  }

  lemma Capital(word: string, text: string)
    requires |word| == |text| > 0 && word[1..] == text[1..]
    requires 'a' <= word[0] <= 'z' && text[0] as int == word[0] as int - 32
    ensures UpperFirst(word) == text
  {
    assert text == [text[0]] + text[1..];
  }

  lemma PresetText(i: nat)
    requires i < 8
    ensures UpperFirst(PRESETS[i])
         == ["Mic", "Game", "Music", "Voicechat", "Notifications", "Browser", "Alerts", "Tts"][i]
  {
    Capital(PRESETS[i], ["Mic", "Game", "Music", "Voicechat", "Notifications", "Browser", "Alerts", "Tts"][i]);
  }

  lemma SplitAt(s: string, c: char)
    requires Find(s, c) < |s|
    ensures s == s[..Find(s, c)] + [c] + s[Find(s, c) + 1..]
  {
  }

  /** Nothing else is accepted: every accepted argument is one of those or a custom track's three parts. */
  lemma AcceptedArgs(arg: string)
    requires TrackOf(arg).Some?
    ensures
      var t := TrackOf(arg).value;
      if t.category == CUSTOM then arg == CustomArg(t.text, t.process)
      else t.category in PRESETS && arg == t.category + [':'] + t.process
  {
    SplitAt(arg, ':');
    if arg[..Find(arg, ':')] == CUSTOM {
      SplitAt(arg[Find(arg, ':') + 1..], '|');
    }
  }

  lemma WordIsSlug(w: string)
    requires Slugs.IsWord(w) && |w| <= Slugs.MAX_SLUG
    ensures Slugs.ValidSlug(w)
  {
    assert Slugs.Join([w]) == w;
  }

  lemma PresetIsWord(c: string)
    requires c in PRESETS
    ensures 3 <= |c| <= 13 && forall i :: 0 <= i < |c| ==> 'a' <= c[i] <= 'z'
  {
  }

  lemma PresetsAreSlugs(c: string)
    requires 3 <= |c| <= 13 && forall i :: 0 <= i < |c| ==> 'a' <= c[i] <= 'z'
    ensures Slugs.ValidSlug(c) && |UpperFirst(c)| == |c|
    ensures forall i :: 0 <= i < |c| ==> UpperFirst(c)[i] == (if i == 0 then (c[i] as int - 32) as char else c[i])
  {
    WordIsSlug(c);
  }

  /** What an accepted track always has. */
  ghost predicate SpecOk(t: TrackSpec) {
    && Slugs.ValidSlug(t.slug) && IsCategory(t.category) && t.text != [] && t.process != []
    && (t.category != CUSTOM ==> t.slug == t.category && t.text == UpperFirst(t.category))
    && (t.category == CUSTOM ==> t.slug == Slugs.Slug(t.text) && '|' !in t.text)
  }

  lemma TrackOfOk(arg: string)
    ensures TrackOf(arg).Some? ==> SpecOk(TrackOf(arg).value)
  {
    if TrackOf(arg).Some? && TrackOf(arg).value.category != CUSTOM {
      PresetIsWord(TrackOf(arg).value.category);
      PresetsAreSlugs(TrackOf(arg).value.category);
    }
  }

  // ---- the argument loop ----

  datatype Config = Config(relayUrl: string, channel: string, token: string, tracks: seq<TrackSpec>, bitrateKbps: int)

  datatype CliError =
    | NeedsValue(flag: string)
    | BitrateOutOfRange
    | InvalidTrack(arg: string)
    | Help
    | UnknownFlag(flag: string)
    | Required(flag: string)
    | TooManyTracks

  predicate IsDigit(c: char) {
    '0' <= c <= '9'
  }

  predicate IsSpace(c: char) {
    c == ' ' || 9 as char <= c <= 13 as char
  }

  /** atoi: blanks, a sign, digits; anything after them is ignored. */
  function Atoi(s: string): int {
    if s == [] then 0
    else if IsSpace(s[0]) then Atoi(s[1..])
    else if s[0] == '-' then -DigitsValue(s[1..], 0)
    else if s[0] == '+' then DigitsValue(s[1..], 0)
    else DigitsValue(s, 0)
  }

  function DigitsValue(s: string, acc: int): int {
    if s == [] || !IsDigit(s[0]) then acc
    else DigitsValue(s[1..], acc * 10 + (s[0] as int - '0' as int))
  }

  predicate TakesValue(flag: string) {
    flag in ["--relay", "--channel", "--token", "--bitrate", "--track"]
  }

  /** One flag with its value. */
  ghost function Apply(cfg: Config, flag: string, v: string): Result<Config, CliError>
    requires TakesValue(flag)
  {
    if flag == "--relay" then Ok(cfg.(relayUrl := v))
    else if flag == "--channel" then Ok(cfg.(channel := v))
    else if flag == "--token" then Ok(cfg.(token := v))
    else if flag == "--bitrate" then
      if 16 <= Atoi(v) <= 128 then Ok(cfg.(bitrateKbps := Atoi(v))) else Err(BitrateOutOfRange)
    else
      match TrackOf(v)
      case None => Err(InvalidTrack(v))
      case Some(t) => Ok(cfg.(tracks := cfg.tracks + [t.(id := (|cfg.tracks| + 1) % 256)]))
  }

  ghost function ParseFrom(args: seq<string>, cfg: Config): Result<Config, CliError> {
    if args == [] then Finish(cfg)
    else if TakesValue(args[0]) then
      if |args| == 1 then Err(NeedsValue(args[0]))
      else
        match Apply(cfg, args[0], args[1])
        case Err(e) => Err(e)
        case Ok(next) => ParseFrom(args[2..], next)
    else if args[0] == "--help" || args[0] == "-h" then Err(Help)
    else Err(UnknownFlag(args[0]))
  }

  function Finish(cfg: Config): Result<Config, CliError> {
    if cfg.relayUrl == [] then Err(Required("--relay"))
    else if cfg.channel == [] then Err(Required("--channel"))
    else if cfg.token == [] then Err(Required("--token"))
    else if cfg.tracks == [] then Err(Required("--track"))
    else if |cfg.tracks| > MAX_TRACKS then Err(TooManyTracks)
    else Ok(cfg)
  }

  const START := Config("", "", "", [], 48)

  method ParseArgs(args: seq<string>) returns (r: Result<Config, CliError>)
    ensures r == ParseFrom(args, START)
  {
    var cfg := START;
    var i := 0;
    while i < |args|
      invariant 0 <= i <= |args| && ParseFrom(args[i..], cfg) == ParseFrom(args, START)
    {
      var flag := args[i];
      if TakesValue(flag) {
        if i + 1 >= |args| {
          return Err(NeedsValue(flag));
        }
        i := i + 1;
        var v := args[i];
        assert args[i - 1..][1] == v && args[i - 1..][2..] == args[i + 1..];
        if flag == "--relay" {
          cfg := cfg.(relayUrl := v);
        } else if flag == "--channel" {
          cfg := cfg.(channel := v);
        } else if flag == "--token" {
          cfg := cfg.(token := v);
        } else if flag == "--bitrate" {
          cfg := cfg.(bitrateKbps := Atoi(v));
          if cfg.bitrateKbps < 16 || cfg.bitrateKbps > 128 {
            return Err(BitrateOutOfRange);
          }
        } else {
          var spec := ParseTrackArg(v);
          if spec == None {
            return Err(InvalidTrack(v));
          }
          cfg := cfg.(tracks := cfg.tracks + [spec.value.(id := (|cfg.tracks| + 1) % 256)]);
        }
      } else if flag == "--help" || flag == "-h" {
        return Err(Help);
      } else {
        return Err(UnknownFlag(flag));
      }
      i := i + 1;
    }
    return Finish(cfg);
  }

  // ---- what an accepted command line is ----

  ghost predicate TracksOk(ts: seq<TrackSpec>) {
    forall k :: 0 <= k < |ts| ==> SpecOk(ts[k]) && ts[k].id == (k + 1) % 256
  }

  /** Accepted configurations have one to eight usable tracks, numbered from one in order, and a bitrate in range. */
  ghost predicate ConfigOk(cfg: Config) {
    && cfg.relayUrl != [] && cfg.channel != [] && cfg.token != []
    && 1 <= |cfg.tracks| <= MAX_TRACKS && 16 <= cfg.bitrateKbps <= 128
    && forall k :: 0 <= k < |cfg.tracks| ==> SpecOk(cfg.tracks[k]) && cfg.tracks[k].id == k + 1
  }

  lemma ApplyOk(cfg: Config, flag: string, v: string)
    requires TakesValue(flag) && TracksOk(cfg.tracks) && 16 <= cfg.bitrateKbps <= 128
    ensures
      match Apply(cfg, flag, v)
      case Ok(next) => TracksOk(next.tracks) && 16 <= next.bitrateKbps <= 128
      case Err(_) => true
  {
    if Apply(cfg, flag, v).Ok? {
      ApplyIff(cfg, flag, v);
      ApplyFields(cfg, flag, v);
      ApplyTracks(cfg, flag, v);
      TrackOfOk(v);
    }
  }

  lemma FinishedOk(cfg: Config)
    requires TracksOk(cfg.tracks) && 16 <= cfg.bitrateKbps <= 128
    ensures Finish(cfg).Ok? ==> ConfigOk(cfg)
  {
  }

  lemma {:induction false} ParseFromOk(args: seq<string>, cfg: Config)
    requires TracksOk(cfg.tracks) && 16 <= cfg.bitrateKbps <= 128
    ensures ParseFrom(args, cfg).Ok? ==> ConfigOk(ParseFrom(args, cfg).value)
    decreases |args|
  {
    if args != [] && ParseFrom(args, cfg).Ok? {
      ParseFromStep(args, cfg);
      ApplyOk(cfg, args[0], args[1]);
      ParseFromOk(args[2..], Apply(cfg, args[0], args[1]).value);
    } else if args == [] {
      FinishedOk(cfg);
    }
  }

  /** Every command line the publisher starts with. */
  lemma AcceptedConfig(args: seq<string>)
    ensures ParseFrom(args, START).Ok? ==> ConfigOk(ParseFrom(args, START).value)
  {
    ParseFromOk(args, START);
  }

  /** One of the five flags, with a bitrate in range or an acceptable track where that is asked for. */
  ghost predicate ValueOk(flag: string, v: string) {
    || flag == "--relay" || flag == "--channel" || flag == "--token"
    || (flag == "--bitrate" && 16 <= Atoi(v) <= 128)
    || (flag == "--track" && TrackOf(v).Some?)
  }

  /** Nothing but flags with a value each. */
  ghost predicate WellFormed(args: seq<string>) {
    args == [] || (|args| >= 2 && ValueOk(args[0], args[1]) && WellFormed(args[2..]))
  }

  /** The value that a flag is given last, or the one it had. */
  function LastValue(args: seq<string>, flag: string, initial: string): string {
    if |args| < 2 then initial else LastValue(args[2..], flag, if args[0] == flag then args[1] else initial)
  }

  function LastBitrate(args: seq<string>, initial: int): int {
    if |args| < 2 then initial else LastBitrate(args[2..], if args[0] == "--bitrate" then Atoi(args[1]) else initial)
  }

  lemma ApplyIff(cfg: Config, flag: string, v: string)
    ensures ValueOk(flag, v) <==> TakesValue(flag) && Apply(cfg, flag, v).Ok?
  {
  }

  lemma ApplyFields(cfg: Config, flag: string, v: string)
    requires TakesValue(flag) && Apply(cfg, flag, v).Ok?
    ensures
      var next := Apply(cfg, flag, v).value;
      && next.relayUrl == (if flag == "--relay" then v else cfg.relayUrl)
      && next.channel == (if flag == "--channel" then v else cfg.channel)
      && next.token == (if flag == "--token" then v else cfg.token)
      && next.bitrateKbps == (if flag == "--bitrate" then Atoi(v) else cfg.bitrateKbps)
  {
  }

  /** What the arguments make of a configuration, apart from its tracks. */
  ghost predicate Configured(args: seq<string>, cfg: Config, end: Config) {
    && end.relayUrl == LastValue(args, "--relay", cfg.relayUrl)
    && end.channel == LastValue(args, "--channel", cfg.channel)
    && end.token == LastValue(args, "--token", cfg.token)
    && end.bitrateKbps == LastBitrate(args, cfg.bitrateKbps)
  }

  lemma ConfiguredStep(args: seq<string>, cfg: Config, end: Config)
    requires |args| >= 2 && TakesValue(args[0]) && Apply(cfg, args[0], args[1]).Ok?
    requires Configured(args[2..], Apply(cfg, args[0], args[1]).value, end)
    ensures Configured(args, cfg, end)
  {
    ApplyFields(cfg, args[0], args[1]);
  }

  lemma {:induction false} ParseFromIs(args: seq<string>, cfg: Config) returns (end: Config)
    ensures if WellFormed(args) then ParseFrom(args, cfg) == Finish(end) && Configured(args, cfg, end)
            else ParseFrom(args, cfg).Err?
    ensures WellFormed(args) ==> |end.tracks| == |cfg.tracks| + |TrackValues(args)|
    decreases |args|
  {
    end := cfg;
    if |args| >= 2 {
      ApplyIff(cfg, args[0], args[1]);
      if ValueOk(args[0], args[1]) {
        end := ParseFromIs(args[2..], Apply(cfg, args[0], args[1]).value);
        if WellFormed(args[2..]) {
          ConfiguredStep(args, cfg, end);
          ApplyTracks(cfg, args[0], args[1]);
          TrackValuesCons(args);
        }
      }
    } else if |args| == 1 {
      OneIsRefused(args[0], cfg);
    }
  }

  lemma OneIsRefused(arg: string, cfg: Config)
    ensures ParseFrom([arg], cfg).Err?
  {
  }

  /**
   A command line is accepted exactly if it is well formed, gives a relay, a channel and a token that
   are not empty, and one to eight tracks; then the last value of each flag counts, and the bitrate
   is 48 unless given.
   */
  lemma AcceptedIff(args: seq<string>)
    ensures
      var relay, channel := LastValue(args, "--relay", ""), LastValue(args, "--channel", "");
      var token := LastValue(args, "--token", "");
      && (ParseFrom(args, START).Ok? <==>
            WellFormed(args) && relay != "" && channel != "" && token != "" && 1 <= |TrackValues(args)| <= 8)
      && (ParseFrom(args, START).Ok? ==>
            var cfg := ParseFrom(args, START).value;
            cfg.relayUrl == relay && cfg.channel == channel && cfg.token == token
            && cfg.bitrateKbps == LastBitrate(args, 48))
  {
    var end := ParseFromIs(args, START);
    FinishIff(end);
  }

  lemma FinishIff(cfg: Config)
    ensures Finish(cfg) ==
              if cfg.relayUrl == "" then Err(Required("--relay"))
              else if cfg.channel == "" then Err(Required("--channel"))
              else if cfg.token == "" then Err(Required("--token"))
              else if |cfg.tracks| == 0 then Err(Required("--track"))
              else if |cfg.tracks| > 8 then Err(TooManyTracks)
              else Ok(cfg)
  {
  }

  /** What an argument that is not acceptable is answered with. */
  ghost function Complaint(arg: string, next: Option<string>): CliError {
    if arg == "--help" || arg == "-h" then Help
    else if arg != "--relay" && arg != "--channel" && arg != "--token" && arg != "--bitrate" && arg != "--track"
    then UnknownFlag(arg)
    else if next == None then NeedsValue(arg)
    else if arg == "--bitrate" then BitrateOutOfRange
    else InvalidTrack(next.value)
  }

  /** The first argument that is not acceptable decides the error, whatever comes after it. */
  lemma {:induction false} FirstComplaint(good: seq<string>, rest: seq<string>, cfg: Config)
    requires WellFormed(good) && rest != [] && (|rest| >= 2 ==> !ValueOk(rest[0], rest[1]))
    ensures ParseFrom(good + rest, cfg) == Err(Complaint(rest[0], if |rest| == 1 then None else Some(rest[1])))
    decreases |good|
  {
    if good == [] {
      assert good + rest == rest;
      Complains(rest, cfg);
    } else {
      ApplyIff(cfg, good[0], good[1]);
      assert (good + rest)[2..] == good[2..] + rest;
      FirstComplaint(good[2..], rest, Apply(cfg, good[0], good[1]).value);
    }
  }

  lemma Complains(rest: seq<string>, cfg: Config)
    requires rest != [] && (|rest| >= 2 ==> !ValueOk(rest[0], rest[1]))
    ensures ParseFrom(rest, cfg) == Err(Complaint(rest[0], if |rest| == 1 then None else Some(rest[1])))
  {
    if |rest| >= 2 && TakesValue(rest[0]) {
      ApplyComplains(cfg, rest[0], rest[1]);
    }
  }

  lemma ApplyComplains(cfg: Config, flag: string, v: string)
    requires TakesValue(flag) && !ValueOk(flag, v)
    ensures Apply(cfg, flag, v) == Err(Complaint(flag, Some(v)))
  {
  }

  /** The values given to --track, in order. */
  function TrackValues(args: seq<string>): seq<string> {
    if |args| < 2 then []
    else (if args[0] == "--track" then [args[1]] else []) + TrackValues(args[2..])
  }

  /** The tracks of these values, numbered from the given number on. */
  ghost function Numbered(vs: seq<string>, from: nat): Option<seq<TrackSpec>> {
    if vs == [] then Some([])
    else
      match (TrackOf(vs[0]), Numbered(vs[1..], from + 1))
      case (Some(t), Some(ts)) => Some([t.(id := from % 256)] + ts)
      case _ => None
  }

  lemma ApplyTracks(cfg: Config, flag: string, v: string)
    requires TakesValue(flag) && Apply(cfg, flag, v).Ok?
    ensures
      var next := Apply(cfg, flag, v).value;
      if flag == "--track" then
        TrackOf(v).Some? && next.tracks == cfg.tracks + [TrackOf(v).value.(id := (|cfg.tracks| + 1) % 256)]
      else
        next.tracks == cfg.tracks
  {
  }

  lemma ParseFromStep(args: seq<string>, cfg: Config)
    requires args != [] && ParseFrom(args, cfg).Ok?
    ensures |args| >= 2 && TakesValue(args[0]) && Apply(cfg, args[0], args[1]).Ok?
    ensures ParseFrom(args, cfg) == ParseFrom(args[2..], Apply(cfg, args[0], args[1]).value)
  {
  }

  lemma NumberedCons(v: string, vs: seq<string>, from: nat)
    requires TrackOf(v).Some? && Numbered(vs, from + 1).Some?
    ensures Numbered([v] + vs, from) == Some([TrackOf(v).value.(id := from % 256)] + Numbered(vs, from + 1).value)
  {
    assert ([v] + vs)[1..] == vs;
  }

  lemma TrackValuesCons(args: seq<string>)
    requires |args| >= 2
    ensures TrackValues(args) ==
              if args[0] == "--track" then [args[1]] + TrackValues(args[2..]) else TrackValues(args[2..])
  {
  }

  lemma NumberedStep(v: string, vs: seq<string>, base: seq<TrackSpec>, next: seq<TrackSpec>, all: seq<TrackSpec>)
    requires TrackOf(v).Some? && next == base + [TrackOf(v).value.(id := (|base| + 1) % 256)]
    requires Numbered(vs, |base| + 2).Some? && all == next + Numbered(vs, |base| + 2).value
    ensures Numbered([v] + vs, |base| + 1).Some? && all == base + Numbered([v] + vs, |base| + 1).value
  {
    NumberedCons(v, vs, |base| + 1);
    Regroup(base, [TrackOf(v).value.(id := (|base| + 1) % 256)], Numbered(vs, |base| + 2).value);
  }

  lemma NumberedFlag(isTrack: bool, v: string, vs: seq<string>, base: seq<TrackSpec>, next: seq<TrackSpec>,
        all: seq<TrackSpec>)
    requires if isTrack
             then TrackOf(v).Some? && next == base + [TrackOf(v).value.(id := (|base| + 1) % 256)]
             else next == base
    requires Numbered(vs, |next| + 1).Some? && all == next + Numbered(vs, |next| + 1).value
    ensures
      var more := Numbered(if isTrack then [v] + vs else vs, |base| + 1);
      more.Some? && all == base + more.value
  {
    if isTrack {
      NumberedStep(v, vs, base, next, all);
    }
  }

  /** The tracks are those of the --track values, one for one and in order, whatever stands between them. */
  lemma {:induction false} TracksInOrder(args: seq<string>, cfg: Config)
    requires ParseFrom(args, cfg).Ok?
    ensures
      var more := Numbered(TrackValues(args), |cfg.tracks| + 1);
      more.Some? && ParseFrom(args, cfg).value.tracks == cfg.tracks + more.value
    decreases |args|
  {
    if args == [] {
      assert TrackValues(args) == [];
    } else {
      ParseFromStep(args, cfg);
      ApplyTracks(cfg, args[0], args[1]);
      var next := Apply(cfg, args[0], args[1]).value;
      TracksInOrder(args[2..], next);
      TrackValuesCons(args);
      NumberedFlag(args[0] == "--track", args[1], TrackValues(args[2..]), cfg.tracks, next.tracks,
                   ParseFrom(args[2..], next).value.tracks);
    }
  }
}
