// Token swaps in HLS playlists during a session's grace period.
module Manifest {
  import opened Basics
  import opened Strings

  const OFFSET_TAG := "#EXT-X-SESSION-OFFSET:"
  const EXTINF_TAG := "#EXTINF:"
  const BLANKS := " \t"
  const NEWLINES := "\r\n"

  /** What ParseFloat makes of a text trimmed of space. */
  type FloatParser = string -> Option<real>

  datatype Rule = Rule(kind: string, scope: string, token: string, durationSec: int)

  predicate IsGrace(r: Rule)
  {
    r.kind == "grace" && r.scope == "manifest" && r.token != "" && r.durationSec > 0
  }

  predicate Unusable(r: Rule) { r.kind != "grace" || r.scope != "manifest" || r.token == "" || r.durationSec <= 0 }

  function FirstGrace(rules: seq<Rule>): (rule: Option<Rule>)
    ensures rule.Some? ==> rule.value in rules && IsGrace(rule.value)
  {
    if rules == [] then None
    else
      var before := FirstGrace(rules[..|rules| - 1]);
      if before.Some? then before
      else if IsGrace(rules[|rules| - 1]) then Some(rules[|rules| - 1])
      else None
  }

  /** The first rule that gives another token for the manifest for a while. */
  method FindGraceRule(rules: seq<Rule>) returns (rule: Option<Rule>)
    ensures rule == FirstGrace(rules)
    ensures rule.None? ==> forall r | r in rules :: Unusable(r)
    ensures rule.Some? ==> !Unusable(rule.value) && exists i ::
      0 <= i < |rules| && rules[i] == rule.value && forall r | r in rules[..i] :: Unusable(r)
  {
    for i := 0 to |rules|
      invariant FirstGrace(rules[..i]) == None
      invariant forall r | r in rules[..i] :: !IsGrace(r)
    {
      assert rules[..i + 1][..i] == rules[..i];
      if IsGrace(rules[i]) {
        GraceStays(rules, i + 1);
        return Some(rules[i]);
      }
    }
    assert rules[..|rules|] == rules;
    rule := None;
  }

  lemma {:induction false} GraceStays(rules: seq<Rule>, n: nat)
    requires n <= |rules| && FirstGrace(rules[..n]).Some?
    ensures FirstGrace(rules) == FirstGrace(rules[..n])
  {
    if n == |rules| {
      assert rules[..n] == rules;
    } else {
      assert rules[..|rules| - 1][..n] == rules[..n];
      GraceStays(rules[..|rules| - 1], n);
    }
  }

  // ---------------------------------------------------------------- the lines of a playlist

  datatype Line = OffsetTag | Extinf(text: string) | Passed | Uri

  function LineOf(raw: string): Line
  {
    var stripped := TrimLeft(TrimRight(raw, NEWLINES), BLANKS);
    if OFFSET_TAG <= stripped then OffsetTag
    else if EXTINF_TAG <= stripped then Extinf(CutAt(stripped[|EXTINF_TAG|..], ',').before)
    else if stripped == "" || stripped[0] == '#' then Passed
    else Uri
  }

  /** The value of the first offset tag anywhere in the text, up to the end of its line. */
  function SessionOffset(body: string, parse: FloatParser): real
  {
    match FindSub(body, OFFSET_TAG)
    case None => 0.0
    case Some(i) =>
      var rest := body[i + |OFFSET_TAG|..];
      match parse(UpToNewline(rest)) case Some(v) => v case None => 0.0
  }

  function UpToNewline(s: string): string
  {
    if s == "" || s[0] in NEWLINES then "" else [s[0]] + UpToNewline(s[1..])
  }

  function SwapToken(line: string, primary: string, grace: string): string
  {
    if primary == "" then line else ReplaceFirst(line, "token=" + primary, "token=" + grace)
  }

  // ---------------------------------------------------------------- what each line becomes

  /** The duration that a segment at line k would have: the last one read since the segment before. */
  function Pending(lines: seq<string>, parse: FloatParser, k: nat): real
    requires k <= |lines|
  {
    if k == 0 then 0.0
    else
      match LineOf(lines[k - 1])
      case Extinf(text) => (match parse(text) case Some(d) => d case None => Pending(lines, parse, k - 1))
      case Uri => 0.0
      case _ => Pending(lines, parse, k - 1)
  }

  /** The start of a segment at line k: the offset and the durations of the segments before. */
  function Start(lines: seq<string>, parse: FloatParser, offset: real, k: nat): real
    requires k <= |lines|
  {
    if k == 0 then offset
    else Start(lines, parse, offset, k - 1) + if LineOf(lines[k - 1]).Uri? then Pending(lines, parse, k - 1) else 0.0
  }

  /** A playlist with its offset and the end of the grace period. */
  datatype Playlist = Playlist(lines: seq<string>, parse: FloatParser, offset: real, until: real)

  predicate IsSegment(p: Playlist, k: nat)
    requires k < |p.lines|
  {
    LineOf(p.lines[k]).Uri? && Pending(p.lines, p.parse, k) > 0.0
  }

  /** Line k is a segment that starts within the grace period. */
  predicate InGrace(p: Playlist, k: nat)
    requires k < |p.lines|
  {
    IsSegment(p, k) && Start(p.lines, p.parse, p.offset, k) < p.until
  }

  function KeptLine(raw: string): string { if LineOf(raw).OffsetTag? then "" else raw }

  function RewrittenLine(p: Playlist, primary: string, grace: string, k: nat): string
    requires k < |p.lines|
  {
    if InGrace(p, k) then SwapToken(p.lines[k], primary, grace) else KeptLine(p.lines[k])
  }

  /** The first n lines without the offset tags. */
  function Kept(lines: seq<string>, n: nat): string
    requires n <= |lines|
  {
    if n == 0 then "" else Kept(lines, n - 1) + KeptLine(lines[n - 1])
  }

  /** The first n lines, with the token of every segment in the grace period swapped. */
  function Rewritten(p: Playlist, primary: string, grace: string, n: nat): string
    requires n <= |p.lines|
  {
    if n == 0 then "" else Rewritten(p, primary, grace, n - 1) + RewrittenLine(p, primary, grace, n - 1)
  }

  function Stripped(body: string): string { Kept(Lines(body), |Lines(body)|) }

  /** RewriteManifest's result under a grace rule. */
  function Served(p: Playlist, primary: string, grace: string): string
  {
    if p.offset >= p.until then Kept(p.lines, |p.lines|) else Rewritten(p, primary, grace, |p.lines|)
  }

  // ---------------------------------------------------------------- the code

  /** The stripper looks for the tag without trimming the end of the line, which makes no difference. */
  lemma {:induction false} TagBeforeNewline(raw: string)
    ensures OFFSET_TAG <= TrimLeft(raw, BLANKS) <==> LineOf(raw).OffsetTag?
  {
    TrimmedTag(raw);
  }

  lemma {:induction false} TrimmedTag(raw: string)
    ensures OFFSET_TAG <= TrimLeft(raw, BLANKS) <==> OFFSET_TAG <= TrimLeft(TrimRight(raw, NEWLINES), BLANKS)
    decreases |raw|
  {
    if raw != "" && raw[|raw| - 1] in NEWLINES {
      var n := |raw| - 1;
      TrimmedTag(raw[..n]);
      TrimLeftOfLonger(raw[..n], raw[n]);
      assert raw == raw[..n] + [raw[n]];
    }
  }

  lemma {:induction false} TrimLeftOfLonger(s: string, c: char)
    requires c !in BLANKS && c in NEWLINES
    ensures OFFSET_TAG <= TrimLeft(s + [c], BLANKS) <==> OFFSET_TAG <= TrimLeft(s, BLANKS)
  {
    if s != "" && s[0] in BLANKS {
      assert (s + [c])[1..] == s[1..] + [c];
      TrimLeftOfLonger(s[1..], c);
    } else {
      assert TrimLeft(s, BLANKS) == s && TrimLeft(s + [c], BLANKS) == s + [c];
      hide TrimLeft;
      TagAndNewline(s, c);
    }
  }

  lemma TagAndNewline(s: string, c: char)
    requires c in NEWLINES
    ensures OFFSET_TAG <= s + [c] <==> OFFSET_TAG <= s
  {
    assert OFFSET_TAG[|OFFSET_TAG| - 1] == ':';
    if |OFFSET_TAG| <= |s| {
      assert (s + [c])[..|OFFSET_TAG|] == s[..|OFFSET_TAG|];
    }
  }

  method StripSessionOffsetLine(body: string) returns (out: string)
    ensures out == Stripped(body)
  {
    out := "";
    var lines := Lines(body);
    for k := 0 to |lines|
      invariant out == Kept(lines, k)
    {
      TagBeforeNewline(lines[k]);
      if OFFSET_TAG <= TrimLeft(lines[k], BLANKS) {
        continue;
      }
      out := out + lines[k];
    }
  }

  /** The playlist of a body under a grace rule. */
  function PlaylistOf(body: string, parse: FloatParser, rule: Rule): Playlist
  {
    Playlist(Lines(body), parse, SessionOffset(body, parse), rule.durationSec as real)
  }

  method RewriteManifest(body: string, rules: seq<Rule>, primary: string, parse: FloatParser) returns (out: string)
    ensures FirstGrace(rules).None? || primary == "" ==> out == body
    ensures FirstGrace(rules).Some? && primary != "" ==>
      var rule := FirstGrace(rules).value;
      out == Served(PlaylistOf(body, parse, rule), primary, rule.token)
  {
    var rule := FindGraceRule(rules);
    if rule.None? || primary == "" {
      return body;
    }
    var offset, until := SessionOffset(body, parse), rule.value.durationSec as real;
    if offset >= until {
      out := StripSessionOffsetLine(body);
      return;
    }
    out := RewriteLines(PlaylistOf(body, parse, rule.value), primary, rule.value.token);
  }

  /** The loop of RewriteManifest. */
  method RewriteLines(p: Playlist, primary: string, grace: string) returns (out: string)
    ensures out == Rewritten(p, primary, grace, |p.lines|)
  {
    var movieTime, pendingExtinf := p.offset, 0.0;
    out := "";
    hide LineOf, SwapToken;
    for k := 0 to |p.lines|
      invariant movieTime == Start(p.lines, p.parse, p.offset, k) && pendingExtinf == Pending(p.lines, p.parse, k)
      invariant out == Rewritten(p, primary, grace, k)
    {
      var line := p.lines[k];
      match LineOf(line) {
        case OffsetTag =>
          continue;
        case Extinf(text) =>
          var d := p.parse(text);
          if d.Some? {
            pendingExtinf := d.value;
          }
        case Passed =>
        case Uri =>
          if movieTime < p.until && pendingExtinf > 0.0 {
            line := SwapToken(line, primary, grace);
          }
          movieTime := movieTime + pendingExtinf;
          pendingExtinf := 0.0;
      }
      out := out + line;
    }
  }

  // ---------------------------------------------------------------- segments in the grace period

  ghost predicate NoNegativeDuration(lines: seq<string>, parse: FloatParser)
  {
    forall k | 0 <= k < |lines| && LineOf(lines[k]).Extinf? ::
      parse(LineOf(lines[k]).text).Some? ==> parse(LineOf(lines[k]).text).value >= 0.0
  }

  lemma {:induction false} PendingNotNegative(lines: seq<string>, parse: FloatParser, k: nat)
    requires k <= |lines| && NoNegativeDuration(lines, parse)
    ensures Pending(lines, parse, k) >= 0.0
  {
    hide LineOf;
    if k > 0 { PendingNotNegative(lines, parse, k - 1); }
  }

  lemma {:induction false} StartGrows(lines: seq<string>, parse: FloatParser, offset: real, j: nat, k: nat)
    requires j <= k <= |lines| && NoNegativeDuration(lines, parse)
    ensures Start(lines, parse, offset, j) <= Start(lines, parse, offset, k)
  {
    hide LineOf;
    if j < k {
      PendingNotNegative(lines, parse, k - 1);
      StartGrows(lines, parse, offset, j, k - 1);
    }
  }

  /** Without negative durations the segments in the grace period are the first ones: none follows a segment
      outside it. */
  lemma InGraceFirst(p: Playlist, j: nat, k: nat)
    requires j < k < |p.lines| && NoNegativeDuration(p.lines, p.parse)
    requires IsSegment(p, j) && InGrace(p, k)
    ensures InGrace(p, j)
  {
    StartGrows(p.lines, p.parse, p.offset, j, k);
  }

  /** The pending duration is that of the last readable EXTINF line, if no segment has used it. */
  lemma {:induction false} PendingIs(lines: seq<string>, parse: FloatParser, j: nat, k: nat, d: real)
    requires j < k <= |lines| && LineOf(lines[j]).Extinf? && parse(LineOf(lines[j]).text) == Some(d)
    requires forall i | j < i < k :: !LineOf(lines[i]).Uri? && !Readable(lines[i], parse)
    ensures Pending(lines, parse, k) == d
  {
    hide LineOf;
    if j < k - 1 { PendingIs(lines, parse, j, k - 1, d); }
  }

  predicate Readable(raw: string, parse: FloatParser)
  {
    LineOf(raw).Extinf? && parse(LineOf(raw).text).Some?
  }

  lemma {:induction false} NothingPending(lines: seq<string>, parse: FloatParser, k: nat)
    requires k <= |lines| && forall i | 0 <= i < k :: !Readable(lines[i], parse)
    ensures Pending(lines, parse, k) == 0.0
  {
    hide LineOf;
    if k > 0 { NothingPending(lines, parse, k - 1); }
  }

  // ---------------------------------------------------------------- the early exit

  function Needle(token: string): string { "token=" + token }

  predicate Holds(line: string, token: string) { token != "" && FindSub(line, Needle(token)).Some? }

  /** A swap changes a line exactly when the line holds the token and the grace token is another one. */
  lemma SwapChangesIff(line: string, primary: string, grace: string)
    ensures SwapToken(line, primary, grace) != line <==> Holds(line, primary) && primary != grace
    ensures |SwapToken(line, primary, grace)| == |line| + Delta(line, primary, grace)
  {
    var at := FindSub(line, Needle(primary));
    FoundIsThere(line, Needle(primary));
    if Holds(line, primary) {
      var i, m := at.value, |Needle(primary)|;
      assert line == line[..i] + Needle(primary) + line[i + m..];
      if SwapToken(line, primary, grace) == line {
        assert |grace| == |primary|;
        assert line[i..i + m] == Needle(grace);
        assert Needle(primary)[6..] == primary && Needle(grace)[6..] == grace;
      }
    }
  }

  function Delta(line: string, primary: string, grace: string): int
  {
    if Holds(line, primary) then |grace| - |primary| else 0
  }

  predicate Swaps(p: Playlist, primary: string, grace: string, k: nat)
    requires k < |p.lines|
  {
    InGrace(p, k) && Holds(p.lines[k], primary) && primary != grace
  }

  lemma LineChangesIff(p: Playlist, primary: string, grace: string, k: nat)
    requires k < |p.lines|
    ensures RewrittenLine(p, primary, grace, k) != KeptLine(p.lines[k]) <==> Swaps(p, primary, grace, k)
    ensures |RewrittenLine(p, primary, grace, k)| ==
      |KeptLine(p.lines[k])| + if Swaps(p, primary, grace, k) then |grace| - |primary| else 0
  {
    SwapChangesIff(p.lines[k], primary, grace);
    hide SwapToken, LineOf, Pending, Start;
  }

  ghost function SwapCount(p: Playlist, primary: string, grace: string, n: nat): nat
    requires n <= |p.lines|
  {
    if n == 0 then 0 else SwapCount(p, primary, grace, n - 1) + if Swaps(p, primary, grace, n - 1) then 1 else 0
  }

  /** By how much the swaps in the first n lines lengthen them. */
  ghost function Growth(p: Playlist, primary: string, grace: string, n: nat): int
    requires n <= |p.lines|
  {
    if n == 0 then 0
    else
      var change := if Swaps(p, primary, grace, n - 1) then |grace| - |primary| else 0;
      Growth(p, primary, grace, n - 1) + change
  }

  lemma {:induction false} LengthOfRewritten(p: Playlist, primary: string, grace: string, n: nat)
    requires n <= |p.lines|
    ensures |Rewritten(p, primary, grace, n)| == |Kept(p.lines, n)| + Growth(p, primary, grace, n)
  {
    hide RewrittenLine, KeptLine, Swaps;
    if n > 0 {
      LengthOfRewritten(p, primary, grace, n - 1);
      LineChangesIff(p, primary, grace, n - 1);
    }
  }

  lemma {:induction false} GrowthSign(p: Playlist, primary: string, grace: string, n: nat)
    requires n <= |p.lines|
    ensures Growth(p, primary, grace, n) == 0 <==> SwapCount(p, primary, grace, n) == 0 || |grace| == |primary|
    ensures |grace| > |primary| ==> Growth(p, primary, grace, n) >= 0
    ensures |grace| < |primary| ==> Growth(p, primary, grace, n) <= 0
  {
    hide Swaps;
    if n > 0 { GrowthSign(p, primary, grace, n - 1); }
  }

  lemma {:induction false} NoSwapKeeps(p: Playlist, primary: string, grace: string, n: nat)
    requires n <= |p.lines| && SwapCount(p, primary, grace, n) == 0
    ensures Rewritten(p, primary, grace, n) == Kept(p.lines, n)
  {
    hide RewrittenLine, KeptLine, Swaps;
    if n > 0 {
      NoSwapKeeps(p, primary, grace, n - 1);
      LineChangesIff(p, primary, grace, n - 1);
    }
  }

  lemma {:induction false} SwapShows(p: Playlist, primary: string, grace: string, n: nat)
    requires n <= |p.lines| && SwapCount(p, primary, grace, n) > 0 && |grace| == |primary|
    ensures Rewritten(p, primary, grace, n) != Kept(p.lines, n)
  {
    hide RewrittenLine, KeptLine, Swaps;
    LengthOfRewritten(p, primary, grace, n - 1);
    GrowthSign(p, primary, grace, n - 1);
    if SwapCount(p, primary, grace, n - 1) > 0 {
      SwapShows(p, primary, grace, n - 1);
    }
    LineChangesIff(p, primary, grace, n - 1);
    SameCut(Rewritten(p, primary, grace, n - 1), Kept(p.lines, n - 1),
            RewrittenLine(p, primary, grace, n - 1), KeptLine(p.lines[n - 1]));
  }

  lemma {:induction false} CountsSwaps(p: Playlist, primary: string, grace: string, n: nat)
    requires n <= |p.lines|
    ensures SwapCount(p, primary, grace, n) > 0 <==> exists k :: 0 <= k < n && Swaps(p, primary, grace, k)
  {
    hide Swaps;
    if n > 0 { CountsSwaps(p, primary, grace, n - 1); }
  }

  /** Rewriting line by line gives what stripping gives exactly when no line is swapped. */
  lemma RewrittenIsKeptIff(p: Playlist, primary: string, grace: string)
    ensures Rewritten(p, primary, grace, |p.lines|) == Kept(p.lines, |p.lines|)
      <==> forall k | 0 <= k < |p.lines| :: !Swaps(p, primary, grace, k)
  {
    var n := |p.lines|;
    CountsSwaps(p, primary, grace, n);
    LengthOfRewritten(p, primary, grace, n);
    GrowthSign(p, primary, grace, n);
    hide Swaps, Rewritten, Kept, SwapCount, Growth;
    if SwapCount(p, primary, grace, n) == 0 {
      NoSwapKeeps(p, primary, grace, n);
    } else if |grace| == |primary| {
      SwapShows(p, primary, grace, n);
    }
  }

  /** The early exit changes nothing exactly when the offset is not past the grace period or no line would be swapped
      in spite of that. */
  lemma EarlyExitSoundIff(p: Playlist, primary: string, grace: string)
    ensures Served(p, primary, grace) == Rewritten(p, primary, grace, |p.lines|)
      <==> p.offset < p.until || forall k | 0 <= k < |p.lines| :: !Swaps(p, primary, grace, k)
  {
    RewrittenIsKeptIff(p, primary, grace);
    hide Rewritten, Kept, Swaps;
  }

  /** Without negative durations it is always sound. */
  lemma EarlyExitSound(p: Playlist, primary: string, grace: string)
    requires NoNegativeDuration(p.lines, p.parse)
    ensures Served(p, primary, grace) == Rewritten(p, primary, grace, |p.lines|)
  {
    EarlyExitSoundIff(p, primary, grace);
    if p.offset >= p.until {
      forall k | 0 <= k < |p.lines| ensures !Swaps(p, primary, grace, k) {
        StartGrows(p.lines, p.parse, p.offset, 0, k);
      }
    }
  }

  /** A playlist without an EXTINF line that can be read, such as a master playlist, is only stripped. */
  lemma NoExtinfNoSwap(p: Playlist, primary: string, grace: string)
    requires forall i | 0 <= i < |p.lines| :: !Readable(p.lines[i], p.parse)
    ensures Served(p, primary, grace) == Kept(p.lines, |p.lines|)
  {
    forall k | 0 <= k < |p.lines| ensures !Swaps(p, primary, grace, k) {
      NothingPending(p.lines, p.parse, k);
    }
    RewrittenIsKeptIff(p, primary, grace);
  }

  /** An EXTINF line whose text has no comma and no blank end. */
  lemma ExtinfLine(text: string)
    requires text != "" && text[|text| - 1] !in NEWLINES && ',' !in text
    ensures LineOf(EXTINF_TAG + text + "\n") == Extinf(text)
  {
    var line := EXTINF_TAG + text;
    assert (line + "\n")[..|line|] == line;
    assert TrimRight(line + "\n", NEWLINES) == line;
    assert TrimLeft(line, BLANKS) == line;
    assert line[4] == 'I' && OFFSET_TAG[4] == '-';
    CutWithout(text, ',');
    assert line[|EXTINF_TAG|..] == text;
  }

  lemma UriLine(uri: string)
    requires uri != "" && uri[0] !in BLANKS && uri[0] != '#' && uri[|uri| - 1] !in NEWLINES
    ensures LineOf(uri) == Uri && LineOf(uri + "\n") == Uri
  {
  }

  lemma OffsetLine(text: string)
    requires text != "" && text[|text| - 1] !in NEWLINES
    ensures LineOf(OFFSET_TAG + text + "\n") == OffsetTag
  {
    var line := OFFSET_TAG + text;
    assert (line + "\n")[..|line|] == line;
    assert TrimRight(line + "\n", NEWLINES) == line;
    assert TrimLeft(line, BLANKS) == line;
  }

  lemma {:induction false} UpToNewlineIs(text: string, c: char, rest: string)
    requires c in NEWLINES && forall x | x in text :: x !in NEWLINES
    ensures UpToNewline(text + [c] + rest) == text
  {
    var s := text + [c] + rest;
    if text == "" {
      assert s == [c] + rest;
    } else {
      assert text[0] in text && s[1..] == text[1..] + [c] + rest;
      UpToNewlineIs(text[1..], c, rest);
    }
  }

  lemma FiveLines(a: string, b: string, c: string, d: string, e: string)
    requires IsLine(a, true) && IsLine(b, true) && IsLine(c, true) && IsLine(d, true) && IsLine(e, false)
    ensures Lines(a + (b + (c + (d + e)))) == [a, b, c, d, e]
  {
    hide IsLine, Lines;
    LastLine(e);
    LinesOfFirst(d, e);
    LinesOfFirst(c, d + e);
    LinesOfFirst(b, c + (d + e));
    LinesOfFirst(a, b + (c + (d + e)));
  }

  /** The offset of a playlist that starts with its tag. */
  lemma OffsetOf(text: string, rest: string, parse: FloatParser)
    requires parse(text).Some? && forall x | x in text :: x !in NEWLINES
    ensures SessionOffset(OFFSET_TAG + text + "\n" + rest, parse) == parse(text).value
  {
    var body := OFFSET_TAG + text + "\n" + rest;
    assert OFFSET_TAG <= body && body[|OFFSET_TAG|..] == text + ['\n'] + rest;
    UpToNewlineIs(text, '\n', rest);
  }

  /** Ten seconds into the movie, past the grace period, a segment takes the time back by nine. */
  function BackInTime(): string { OFFSET_TAG + "10" + "\n" + AfterOffset() }

  function AfterOffset(): string
  {
    EXTINF_TAG + "-9" + "\n" + ("a" + "\n" + (EXTINF_TAG + "6" + "\n" + ("token=" + "P")))
  }

  function BackInTimeLines(): seq<string>
  {
    [OFFSET_TAG + "10" + "\n", EXTINF_TAG + "-9" + "\n", "a" + "\n", EXTINF_TAG + "6" + "\n", "token=" + "P"]
  }

  lemma BackInTimeHasLines()
    ensures Lines(BackInTime()) == BackInTimeLines()
  {
    TagLine(OFFSET_TAG, "10");
    TagLine(EXTINF_TAG, "-9");
    TagLine("", "a");
    TagLine(EXTINF_TAG, "6");
    assert "" + "a" + "\n" == "a" + "\n";
    assert IsLine("token=" + "P", false) by { assert ("token=" + "P")[..|"token=" + "P"|] == "token=P"; }
    FiveLines(OFFSET_TAG + "10" + "\n", EXTINF_TAG + "-9" + "\n", "a" + "\n", EXTINF_TAG + "6" + "\n", "token=" + "P");
    hide Lines;
  }

  lemma TagLine(tag: string, text: string)
    requires '\n' !in tag && '\n' !in text
    ensures IsLine(tag + text + "\n", true)
  {
  }

  /** A negative duration can bring a later segment back into the grace period: then the early exit hides a swap. */
  lemma NegativeDurationHidesSwap(parse: FloatParser, rule: Rule)
    requires parse("10") == Some(10.0) && parse("-9") == Some(-9.0) && parse("6") == Some(6.0)
    requires IsGrace(rule) && rule.durationSec == 5 && rule.token != "P"
    ensures var p := PlaylistOf(BackInTime(), parse, rule);
      Served(p, "P", rule.token) != Rewritten(p, "P", rule.token, |p.lines|)
  {
    var p := PlaylistOf(BackInTime(), parse, rule);
    BackInTimePlaylist(parse, rule);
    BackInTimeKinds(p);
    hide LineOf, Served, Rewritten, InGrace, Swaps, PlaylistOf, BackInTime;
    assert p.lines[4] == "token=" + "P";
    hide BackInTimeLines;
    BackInGrace(p);
    NeedleFound(p, "P", rule.token);
    EarlyExitSoundIff(p, "P", rule.token);
  }

  lemma BackInTimePlaylist(parse: FloatParser, rule: Rule)
    requires parse("10") == Some(10.0)
    ensures var p := PlaylistOf(BackInTime(), parse, rule);
      && p.offset == 10.0 && p.until == rule.durationSec as real && p.parse == parse && p.lines == BackInTimeLines()
  {
    hide SessionOffset, Lines, BackInTimeLines, AfterOffset;
    BackInTimeHasLines();
    OffsetOf("10", AfterOffset(), parse);
  }

  lemma BackInTimeKinds(p: Playlist)
    requires p.lines == BackInTimeLines()
    ensures |p.lines| == 5 && LineOf(p.lines[0]) == OffsetTag && LineOf(p.lines[1]) == Extinf("-9")
    ensures LineOf(p.lines[2]) == Uri && LineOf(p.lines[3]) == Extinf("6") && LineOf(p.lines[4]) == Uri
  {
    hide LineOf;
    OffsetLine("10");
    ExtinfLine("-9");
    UriLine("a");
    ExtinfLine("6");
    UriLine("token=" + "P");
  }

  lemma NeedleFound(p: Playlist, primary: string, grace: string)
    requires |p.lines| == 5 && p.lines[4] == "token=" + primary && InGrace(p, 4) && primary != grace && primary != ""
    ensures Swaps(p, primary, grace, 4)
  {
  }

  lemma BackInGrace(p: Playlist)
    requires |p.lines| == 5 && LineOf(p.lines[0]) == OffsetTag
    requires LineOf(p.lines[1]) == Extinf("-9") && LineOf(p.lines[3]) == Extinf("6")
    requires LineOf(p.lines[2]) == LineOf(p.lines[4]) == Uri
    requires p.parse("-9") == Some(-9.0) && p.parse("6") == Some(6.0) && p.offset == 10.0 && p.until == 5.0
    ensures InGrace(p, 4)
  {
    hide LineOf;
    assert Pending(p.lines, p.parse, 2) == -9.0;
    assert Start(p.lines, p.parse, p.offset, 1) == 10.0;
    assert Start(p.lines, p.parse, p.offset, 2) == 10.0;
    assert Start(p.lines, p.parse, p.offset, 3) == 1.0;
    assert Start(p.lines, p.parse, p.offset, 4) == 1.0;
  }

  lemma SameCut(a: string, b: string, x: string, y: string)
    requires |a| == |b|
    ensures a + x == b + y <==> a == b && x == y
  {
    if a + x == b + y {
      assert a == (a + x)[..|a|] && x == (a + x)[|a|..];
      assert b == (b + y)[..|b|] && y == (b + y)[|b|..];
    }
  }

  // ---------------------------------------------------------------- what is left alone

  /** The lines from k on without the offset tags. */
  function KeptFrom(lines: seq<string>, k: nat): string
    requires k <= |lines|
    decreases |lines| - k
  {
    if k == |lines| then "" else KeptLine(lines[k]) + KeptFrom(lines, k + 1)
  }

  lemma {:induction false} KeptSplits(lines: seq<string>, k: nat)
    requires k <= |lines|
    ensures Kept(lines, |lines|) == Kept(lines, k) + KeptFrom(lines, k)
    decreases |lines| - k
  {
    hide KeptLine;
    if k < |lines| { KeptSplits(lines, k + 1); }
  }

  lemma LastLine(line: string)
    requires IsLine(line, false)
    ensures Lines(line) == [line]
  {
  }

  lemma {:induction false} NoTagFrom(lines: seq<string>, k: nat, l: string)
    requires k <= |lines| && forall i | 0 <= i < |lines| :: IsLine(lines[i], i < |lines| - 1)
    requires l in Lines(KeptFrom(lines, k))
    ensures !LineOf(l).OffsetTag?
    decreases |lines| - k
  {
    hide IsLine, LineOf;
    if k == |lines| {
      EmptyLine();
    } else if LineOf(lines[k]).OffsetTag? {
      assert KeptFrom(lines, k) == KeptFrom(lines, k + 1);
      NoTagFrom(lines, k + 1, l);
    } else if k == |lines| - 1 {
      LastLine(lines[k]);
      assert KeptFrom(lines, k) == lines[k];
    } else {
      LinesOfFirst(lines[k], KeptFrom(lines, k + 1));
      if l != lines[k] { NoTagFrom(lines, k + 1, l); }
    }
  }

  lemma EmptyLine()
    ensures Lines("") == [""] && LineOf("") == Passed
  {
  }

  /** No line of a stripped playlist is an offset tag: taking a line out never joins others into a new one. */
  lemma NoTagLeft(body: string, l: string)
    requires l in Lines(Stripped(body))
    ensures !LineOf(l).OffsetTag?
  {
    var lines := Lines(body);
    forall i | 0 <= i < |lines| ensures IsLine(lines[i], i < |lines| - 1) {
      LinesAreLines(body, i);
    }
    KeptSplits(lines, 0);
    assert Kept(lines, 0) + KeptFrom(lines, 0) == KeptFrom(lines, 0);
    NoTagFrom(lines, 0, l);
  }

  lemma {:induction false} AllKept(lines: seq<string>, n: nat)
    requires n <= |lines| && forall i | 0 <= i < n :: !LineOf(lines[i]).OffsetTag?
    ensures Kept(lines, n) == Join(lines[..n])
  {
    hide LineOf;
    if n > 0 {
      AllKept(lines, n - 1);
      assert lines[..n][..n - 1] == lines[..n - 1];
    }
  }

  /** A playlist without offset tags and without a line to swap is passed on byte for byte. */
  lemma Untouched(body: string, p: Playlist, primary: string, grace: string)
    requires p.lines == Lines(body) && forall l | l in Lines(body) :: !LineOf(l).OffsetTag?
    requires forall k | 0 <= k < |p.lines| :: !Swaps(p, primary, grace, k)
    ensures Stripped(body) == body && Rewritten(p, primary, grace, |p.lines|) == body
  {
    AllKept(p.lines, |p.lines|);
    assert p.lines[..|p.lines|] == p.lines;
    LinesJoin(body);
    RewrittenIsKeptIff(p, primary, grace);
  }

  /** Stripping twice is stripping once. */
  lemma StripTwice(body: string)
    ensures Stripped(Stripped(body)) == Stripped(body)
  {
    var once := Stripped(body);
    var lines := Lines(once);
    forall i | 0 <= i < |lines| ensures !LineOf(lines[i]).OffsetTag? {
      NoTagLeft(body, lines[i]);
    }
    AllKept(lines, |lines|);
    assert lines[..|lines|] == lines;
    LinesJoin(once);
  }

  // ---------------------------------------------------------------- the swap that is documented

  predicate IsSeparator(c: char) { c == '?' || c == '&' }

  predicate EndsParameter(c: char) { c == '&' || c == '#' || c == '\r' || c == '\n' }

  predicate SafeToken(token: string) { forall c | c in token :: !IsSeparator(c) }

  predicate OccursAt(line: string, k: nat, token: string)
  {
    var end := k + |Needle(token)|;
    end <= |line| && line[k..end] == Needle(token)
  }

  /** The whole of a query parameter at position k is the token. */
  predicate WholeAt(line: string, k: nat, token: string)
  {
    var end := k + |Needle(token)|;
    && OccursAt(line, k, token) && 0 < k && IsSeparator(line[k - 1]) && (end == |line| || EndsParameter(line[end]))
  }

  function FirstWhole(line: string, token: string, k: nat): (at: Option<nat>)
    ensures at.Some? ==> k <= at.value && WholeAt(line, at.value, token)
    decreases |line| - k
  {
    if k >= |line| then None
    else if WholeAt(line, k, token) then Some(k)
    else FirstWhole(line, token, k + 1)
  }

  lemma {:induction false} FirstWholeIsFirst(line: string, token: string, from: nat, k: nat)
    requires from <= k && WholeAt(line, k, token)
    ensures FirstWhole(line, token, from).Some? && FirstWhole(line, token, from).value <= k
    decreases k - from
  {
    if from < k { FirstWholeIsFirst(line, token, from + 1, k); }
  }

  function ReplaceAt(line: string, k: nat, primary: string, grace: string): string
    requires OccursAt(line, k, primary)
  {
    line[..k] + Needle(grace) + line[k + |Needle(primary)|..]
  }

  /** What swapToken is documented to do: replace the first parameter token=primary. */
  function DocumentedSwap(line: string, primary: string, grace: string): string
  {
    match FirstWhole(line, primary, 0)
    case None => line
    case Some(k) => ReplaceAt(line, k, primary, grace)
  }

  /** The first separator from position i on. */
  lemma {:induction false} FirstSeparator(line: string, i: nat, k: nat) returns (e: nat)
    requires i <= k < |line| && IsSeparator(line[k])
    ensures i <= e <= k && IsSeparator(line[e]) && forall x | i <= x < e :: !IsSeparator(line[x])
    decreases k - i
  {
    if IsSeparator(line[i]) { e := i; } else { e := FirstSeparator(line, i + 1, k); }
  }

  /** Replacing an occurrence is not replacing a later one that is a whole parameter. */
  lemma ReplacedElsewhere(line: string, i: nat, k: nat, primary: string, grace: string)
    requires SafeToken(primary) && SafeToken(grace) && primary != grace && i < k && WholeAt(line, k, primary)
    requires OccursAt(line, i, primary)
    ensures ReplaceAt(line, i, primary, grace) != ReplaceAt(line, k, primary, grace)
  {
    var a, b, m := Needle(primary), Needle(grace), |Needle(primary)|;
    var early, late := ReplaceAt(line, i, primary, grace), ReplaceAt(line, k, primary, grace);
    NoSeparator(primary);
    NoSeparator(grace);
    assert forall x | i <= x < i + m :: line[x] == line[i..i + m][x - i] == a[x - i];
    var e := FirstSeparator(line, i, k - 1);
    if |a| != |b| {
      ShiftedApart(line, i, k, e, a, b);
    } else {
      assert early[i..i + m] == b && late[i..i + m] == line[i..i + m];
      assert a[6..] == primary && b[6..] == grace;
    }
  }

  lemma NoSeparator(token: string)
    requires SafeToken(token)
    ensures forall x | 0 <= x < |Needle(token)| :: !IsSeparator(Needle(token)[x])
  {
  }

  /** Of different lengths they move the separator e, or what the later one leaves of it, to different positions. */
  lemma ShiftedApart(line: string, i: nat, k: nat, e: nat, a: string, b: string)
    requires i + |a| <= e < k && k + |a| <= |line| && |a| != |b|
    requires IsSeparator(line[e]) && (forall x | i <= x < e :: !IsSeparator(line[x]))
    requires forall x | 0 <= x < |b| :: !IsSeparator(b[x])
    ensures line[..i] + b + line[i + |a|..] != line[..k] + b + line[k + |a|..]
  {
    var early, late, shift := line[..i] + b + line[i + |a|..], line[..k] + b + line[k + |a|..], |b| - |a|;
    if shift > 0 {
      assert late[e] == line[e];
      assert early[e] == if e < i + |b| then b[e - i] else line[e - shift];
    } else {
      assert early[e + shift] == line[e];
      assert late[e + shift] == line[e + shift];
    }
  }

  /** Swapping the first occurrence is the documented swap exactly when there is none, when the tokens are the same, or
      when that occurrence is a whole parameter. */
  lemma DocumentedSwapIff(line: string, primary: string, grace: string)
    requires SafeToken(primary) && SafeToken(grace) && primary != ""
    ensures SwapToken(line, primary, grace) == DocumentedSwap(line, primary, grace) <==>
      || primary == grace || !Holds(line, primary)
      || WholeAt(line, FindSub(line, Needle(primary)).value, primary)
  {
    if !Holds(line, primary) || primary == grace {
      SwapsAlike(line, primary, grace);
    } else if WholeAt(line, FindSub(line, Needle(primary)).value, primary) {
      SwapsWhole(line, primary, grace);
    } else {
      SwapsPart(line, primary, grace);
    }
  }

  lemma SwapsAlike(line: string, primary: string, grace: string)
    requires primary != "" && (!Holds(line, primary) || primary == grace)
    ensures SwapToken(line, primary, grace) == line == DocumentedSwap(line, primary, grace)
  {
    SwapChangesIff(line, primary, grace);
    var whole := FirstWhole(line, primary, 0);
    if whole.Some? {
      ReplacesItself(line, whole.value, primary);
      FirstOccurs(line, primary, whole.value);
    }
    hide FindSub, FirstWhole, SwapToken, ReplaceAt, Needle, Delta, OccursAt;
  }

  lemma SwapsWhole(line: string, primary: string, grace: string)
    requires Holds(line, primary) && WholeAt(line, FindSub(line, Needle(primary)).value, primary)
    ensures SwapToken(line, primary, grace) == DocumentedSwap(line, primary, grace)
  {
    SwapIs(line, primary, grace);
    hide FindSub, SwapToken, ReplaceAt, Needle, OccursAt;
    var first := FindSub(line, Needle(primary)).value;
    FirstWholeIsFirst(line, primary, 0, first);
    FirstOccurs(line, primary, FirstWhole(line, primary, 0).value);
    hide WholeAt, FirstWhole;
  }

  lemma SwapsPart(line: string, primary: string, grace: string)
    requires SafeToken(primary) && SafeToken(grace) && primary != grace && Holds(line, primary)
    requires !WholeAt(line, FindSub(line, Needle(primary)).value, primary)
    ensures SwapToken(line, primary, grace) != DocumentedSwap(line, primary, grace)
  {
    SwapIs(line, primary, grace);
    SwapChangesIff(line, primary, grace);
    hide FindSub, SafeToken, SwapToken, ReplaceAt, Needle, OccursAt, FirstWhole, Delta, WholeAt, Holds;
    var first, whole := FindSub(line, Needle(primary)).value, FirstWhole(line, primary, 0);
    if whole.Some? {
      NotTheFirst(line, first, whole.value, primary, grace);
    }
  }

  lemma NotTheFirst(line: string, first: nat, whole: nat, primary: string, grace: string)
    requires SafeToken(primary) && SafeToken(grace) && primary != grace && Holds(line, primary)
    requires FindSub(line, Needle(primary)) == Some(first) && OccursAt(line, first, primary)
    requires WholeAt(line, whole, primary) && !WholeAt(line, first, primary)
    ensures OccursAt(line, whole, primary)
    ensures ReplaceAt(line, first, primary, grace) != ReplaceAt(line, whole, primary, grace)
  {
    FirstOccurs(line, primary, whole);
    hide FindSub, SafeToken, ReplaceAt, Needle, OccursAt;
    ReplacedElsewhere(line, first, whole, primary, grace);
  }

  lemma SwapIs(line: string, primary: string, grace: string)
    requires primary != "" && Holds(line, primary)
    ensures var first := FindSub(line, Needle(primary)).value;
      OccursAt(line, first, primary) && SwapToken(line, primary, grace) == ReplaceAt(line, first, primary, grace)
  {
    FoundIsThere(line, Needle(primary));
    hide FindSub;
  }

  lemma FirstOccurs(line: string, primary: string, k: nat)
    requires primary != "" && OccursAt(line, k, primary)
    ensures Holds(line, primary) && FindSub(line, Needle(primary)).value <= k
  {
    FindSubFirst(line, Needle(primary), k);
  }

  lemma ReplacesItself(line: string, k: nat, primary: string)
    requires OccursAt(line, k, primary)
    ensures ReplaceAt(line, k, primary, primary) == line
  {
  }

  /** Two lines on which they differ: another parameter that ends in token=P, and a longer token that starts with P. */
  lemma SwapsPartOfParameter()
    ensures SwapToken("?xtoken=P", "P", "G") == "?xtoken=G" && DocumentedSwap("?xtoken=P", "P", "G") == "?xtoken=P"
    ensures SwapToken("?token=PQ", "P", "G") == "?token=GQ" && DocumentedSwap("?token=PQ", "P", "G") == "?token=PQ"
  {
    SwapsOtherParameter();
    SwapsLongerToken();
    NoWhole("?xtoken=P");
    NoWhole("?token=PQ");
    hide SwapToken, FirstWhole;
  }

  lemma FoundLater(s: string, sub: string)
    requires s != "" && sub != "" && s[0] != sub[0] && sub <= s[1..]
    ensures FindSub(s, sub) == Some(1)
  {
  }

  lemma SwapsOtherParameter()
    ensures SwapToken("?xtoken=P", "P", "G") == "?xtoken=G"
  {
    var line, sub := "?xtoken=P", "token=P";
    assert line[1..] == "xtoken=P" && line[1..][1..] == sub && Needle("P") == sub;
    FoundLater(line[1..], sub);
    assert line[0] != sub[0] && FindSub(line, sub) == Some(2);
    hide FindSub;
    assert line[..2] + "token=G" + line[9..] == "?xtoken=G";
  }

  lemma SwapsLongerToken()
    ensures SwapToken("?token=PQ", "P", "G") == "?token=GQ"
  {
    var line, sub := "?token=PQ", "token=P";
    assert line[1..][..7] == sub && Needle("P") == sub;
    FoundLater(line, sub);
    hide FindSub;
    assert line[..1] + "token=G" + line[8..] == "?token=GQ";
  }

  lemma NoWhole(line: string)
    requires line == "?xtoken=P" || line == "?token=PQ"
    ensures FirstWhole(line, "P", 0) == None
  {
  }
}
