// When the segments of a playlist start, and so which of them the rewriter swaps.
module SegmentTimes {
  import opened Basics
  import opened Strings
  import opened Manifest

  // ---------------------------------------------------------------- kinds of lines

  predicate All(s: string, chars: string) { forall c | c in s :: c in chars }

  lemma {:induction false} TrimsRight(s: string, end: string)
    requires All(end, NEWLINES) && (s != "" ==> s[|s| - 1] !in NEWLINES)
    ensures TrimRight(s + end, NEWLINES) == s
  {
    if end == "" {
      assert s + end == s;
    } else {
      var n := |end| - 1;
      assert (s + end)[..|s + end| - 1] == s + end[..n];
      TrimsRight(s, end[..n]);
    }
  }

  lemma {:induction false} TrimsLeft(blank: string, s: string)
    requires All(blank, BLANKS) && (s != "" ==> s[0] !in BLANKS)
    ensures TrimLeft(blank + s, BLANKS) == s
  {
    if blank == "" {
      assert blank + s == s;
    } else {
      assert (blank + s)[1..] == blank[1..] + s;
      TrimsLeft(blank[1..], s);
    }
  }

  /** A line as a playlist has it: blanks, a text without blanks before it, and the end of the line. */
  lemma Trimmed(blank: string, text: string, end: string)
    requires All(blank, BLANKS) && All(end, NEWLINES)
    requires text != "" ==> text[0] !in BLANKS && text[|text| - 1] !in NEWLINES
    ensures TrimLeft(TrimRight(blank + text + end, NEWLINES), BLANKS) == text
  {
    if text == "" && blank != "" { assert blank[|blank| - 1] in blank; }
    TrimsRight(blank + text, end);
    TrimsLeft(blank, text);
  }

  /** The duration of an EXTINF line stands before its first comma; a title may follow. */
  lemma ExtinfKind(blank: string, number: string, title: string, end: string)
    requires All(blank, BLANKS) && All(end, NEWLINES) && ',' !in number
    requires number != "" ==> number[|number| - 1] !in NEWLINES
    requires title != "" ==> title[|title| - 1] !in NEWLINES
    ensures LineOf(blank + ("#EXTINF:" + number + "," + title) + end) == Extinf(number)
    ensures LineOf(blank + ("#EXTINF:" + number) + end) == Extinf(number)
  {
    var bare, titled := "#EXTINF:" + number, "#EXTINF:" + number + "," + title;
    Trimmed(blank, bare, end);
    Trimmed(blank, titled, end);
    assert bare[|EXTINF_TAG|..] == number && titled[|EXTINF_TAG|..] == number + [','] + title;
    assert bare[4] == titled[4] == 'I' && OFFSET_TAG[4] == '-';
    assert bare[..8] == EXTINF_TAG == titled[..8];
    CutWithout(number, ',');
    CutReadsBack(number, ',', title);
    hide TrimLeft, TrimRight;
  }

  /** The other lines: offset tags, blank lines and other tags, and the segments. */
  lemma OtherKinds(blank: string, text: string, end: string)
    requires All(blank, BLANKS) && All(end, NEWLINES)
    requires text != "" ==> text[0] !in BLANKS && text[|text| - 1] !in NEWLINES
    requires !("#EXTINF:" <= text)
    ensures LineOf(blank + text + end) ==
      if "#EXT-X-SESSION-OFFSET:" <= text then OffsetTag else if text == "" || text[0] == '#' then Passed else Uri
  {
    Trimmed(blank, text, end);
  }

  lemma FoundStarts(s: string, sub: string)
    ensures var at := FindSub(s, sub); at.Some? ==> sub <= s[at.value..]
  {
    FoundIsThere(s, sub);
    var at := FindSub(s, sub);
    if at.Some? { assert s[at.value..at.value + |sub|] == s[at.value..][..|sub|]; }
  }

  lemma FoundFirst(before: string, sub: string, rest: string)
    requires forall k | 0 <= k < |before| :: !(sub <= (before + sub + rest)[k..])
    ensures FindSub(before + sub + rest, sub) == Some(|before|)
  {
    var s := before + sub + rest;
    assert s[|before|..|before| + |sub|] == sub;
    FindSubFirst(s, sub, |before|);
    FoundStarts(s, sub);
  }

  /** The offset is read from the first offset tag in the text, up to the end of its line; without one it is zero, and
      so it is when it cannot be read. */
  lemma OffsetRead(before: string, text: string, rest: string, parse: FloatParser)
    requires (forall c | c in text :: c !in NEWLINES) && (rest != "" ==> rest[0] in NEWLINES)
    requires forall k | 0 <= k < |before| ::
      !("#EXT-X-SESSION-OFFSET:" <= (before + "#EXT-X-SESSION-OFFSET:" + (text + rest))[k..])
    ensures SessionOffset(before + "#EXT-X-SESSION-OFFSET:" + (text + rest), parse)
         == match parse(text) case Some(offset) => offset case None => 0.0
  {
    FoundFirst(before, OFFSET_TAG, text + rest);
    TailIs(before, OFFSET_TAG, text + rest);
    UpToEnd(text, rest);
    hide FindSub, UpToNewline;
  }

  lemma TailIs(before: string, sub: string, rest: string)
    ensures (before + sub + rest)[|before| + |sub|..] == rest
  {
  }

  lemma UpToEnd(text: string, rest: string)
    requires (forall c | c in text :: c !in NEWLINES) && (rest != "" ==> rest[0] in NEWLINES)
    ensures UpToNewline(text + rest) == text
  {
    if rest == "" {
      AllOfLine(text);
      assert text + rest == text;
    } else {
      UpToNewlineIs(text, rest[0], rest[1..]);
      assert text + [rest[0]] + rest[1..] == text + rest;
    }
  }

  lemma {:induction false} AllOfLine(text: string)
    requires forall c | c in text :: c !in NEWLINES
    ensures UpToNewline(text) == text
  {
    if text != "" {
      assert text[0] in text;
      AllOfLine(text[1..]);
    }
  }

  lemma NoOffset(body: string, parse: FloatParser)
    requires forall k | 0 <= k <= |body| :: !("#EXT-X-SESSION-OFFSET:" <= body[k..])
    ensures SessionOffset(body, parse) == 0.0
  {
    FoundStarts(body, OFFSET_TAG);
  }

  // ---------------------------------------------------------------- movie time

  /** Line e is the EXTINF line that the segment at line j gets its duration from. */
  ghost predicate Lasts(p: Playlist, e: nat, j: nat, d: real)
    requires j < |p.lines|
  {
    && e < j && LineOf(p.lines[e]).Extinf? && p.parse(LineOf(p.lines[e]).text) == Some(d)
    && forall i | e < i < j :: !LineOf(p.lines[i]).Uri? && !Readable(p.lines[i], p.parse)
  }

  ghost predicate NoSegmentBetween(p: Playlist, j: nat, k: nat)
    requires k <= |p.lines|
  {
    forall i | j <= i < k :: !LineOf(p.lines[i]).Uri?
  }

  lemma {:induction false} SameStart(p: Playlist, j: nat, k: nat)
    requires j <= k <= |p.lines| && NoSegmentBetween(p, j, k)
    ensures Start(p.lines, p.parse, p.offset, k) == Start(p.lines, p.parse, p.offset, j)
  {
    hide LineOf;
    if j < k { SameStart(p, j, k - 1); }
  }

  /** The first segment starts at the offset. */
  lemma FirstSegment(p: Playlist, k: nat)
    requires k <= |p.lines| && NoSegmentBetween(p, 0, k)
    ensures Start(p.lines, p.parse, p.offset, k) == p.offset
  {
    SameStart(p, 0, k);
  }

  /** From one segment to the next the time advances by exactly the duration of the first. */
  lemma NextSegment(p: Playlist, e: nat, j: nat, k: nat, d: real)
    requires j < k <= |p.lines| && LineOf(p.lines[j]).Uri? && Lasts(p, e, j, d) && NoSegmentBetween(p, j + 1, k)
    ensures Start(p.lines, p.parse, p.offset, k) == Start(p.lines, p.parse, p.offset, j) + d
  {
    hide LineOf;
    PendingIs(p.lines, p.parse, e, j, d);
    SameStart(p, j + 1, k);
  }

  /** A segment is in the grace period exactly when it lasts some time and starts before the period's end. */
  lemma InGraceIff(p: Playlist, e: nat, k: nat, d: real)
    requires k < |p.lines| && LineOf(p.lines[k]).Uri? && Lasts(p, e, k, d)
    ensures InGrace(p, k) <==> d > 0.0 && Start(p.lines, p.parse, p.offset, k) < p.until
  {
    hide LineOf;
    PendingIs(p.lines, p.parse, e, k, d);
  }

  /** A segment without an EXTINF line of its own is not, and takes no time, whatever the one before it lasts. */
  lemma {:induction false} WithoutExtinf(p: Playlist, j: nat, k: nat)
    requires j < k < |p.lines| && LineOf(p.lines[j]).Uri?
    requires forall i | j < i < k :: !Readable(p.lines[i], p.parse)
    ensures Pending(p.lines, p.parse, k) == 0.0 && !InGrace(p, k)
    ensures Start(p.lines, p.parse, p.offset, k + 1) == Start(p.lines, p.parse, p.offset, k)
    decreases k
  {
    hide LineOf;
    if j < k - 1 { WithoutExtinf(p, j, k - 1); }
  }

  // ---------------------------------------------------------------- segments of one length

  /** Every segment lasts d seconds. */
  ghost predicate EachLasts(p: Playlist, d: real)
  {
    forall j | 0 <= j < |p.lines| && LineOf(p.lines[j]).Uri? :: exists e: nat :: Lasts(p, e, j, d)
  }

  function SegmentsBefore(lines: seq<string>, k: nat): nat
    requires k <= |lines|
  {
    if k == 0 then 0 else SegmentsBefore(lines, k - 1) + if LineOf(lines[k - 1]).Uri? then 1 else 0
  }

  /** The start of a segment after n others. */
  function NthStart(offset: real, d: real, n: nat): real { offset + n as real * d }

  lemma NthNext(offset: real, d: real, n: nat)
    ensures NthStart(offset, d, 0) == offset && NthStart(offset, d, n + 1) == NthStart(offset, d, n) + d
    ensures d > 0.0 ==> NthStart(offset, d, n) >= offset
  {
  }

  lemma EachPending(p: Playlist, d: real, k: nat)
    requires EachLasts(p, d) && k < |p.lines| && LineOf(p.lines[k]).Uri?
    ensures Pending(p.lines, p.parse, k) == d
  {
    hide LineOf;
    var e: nat :| Lasts(p, e, k, d);
    PendingIs(p.lines, p.parse, e, k, d);
  }

  lemma {:induction false} UniformStart(p: Playlist, d: real, k: nat)
    requires EachLasts(p, d) && k <= |p.lines|
    ensures Start(p.lines, p.parse, p.offset, k) == NthStart(p.offset, d, SegmentsBefore(p.lines, k))
  {
    hide LineOf, EachLasts, NthStart;
    if k > 0 {
      UniformStart(p, d, k - 1);
      NthNext(p.offset, d, SegmentsBefore(p.lines, k - 1));
      if LineOf(p.lines[k - 1]).Uri? { EachPending(p, d, k - 1); }
    } else {
      NthNext(p.offset, d, 0);
    }
  }

  /** The segment after n others is in the grace period exactly when the offset and n durations are. */
  lemma UniformInGraceIff(p: Playlist, d: real, k: nat)
    requires d > 0.0 && EachLasts(p, d) && k < |p.lines| && LineOf(p.lines[k]).Uri?
    ensures InGrace(p, k) <==> p.offset + SegmentsBefore(p.lines, k) as real * d < p.until
  {
    hide LineOf, EachLasts;
    UniformStart(p, d, k);
    EachPending(p, d, k);
  }

  /** The first n lines without the offset tags, and with the tokens of the first m segments swapped. */
  function SwappedFirst(lines: seq<string>, primary: string, grace: string, m: nat, n: nat): string
    requires n <= |lines|
  {
    if n == 0 then ""
    else SwappedFirst(lines, primary, grace, m, n - 1) + SwappedLine(lines, primary, grace, m, n - 1)
  }

  function SwappedLine(lines: seq<string>, primary: string, grace: string, m: nat, k: nat): string
    requires k < |lines|
  {
    match LineOf(lines[k])
    case OffsetTag => ""
    case Uri => if SegmentsBefore(lines, k) < m then SwapToken(lines[k], primary, grace) else lines[k]
    case _ => lines[k]
  }

  lemma LineSwapped(p: Playlist, primary: string, grace: string, d: real, m: nat, k: nat)
    requires d > 0.0 && EachLasts(p, d) && k < |p.lines|
    requires forall i: nat :: i < m <==> NthStart(p.offset, d, i) < p.until
    ensures RewrittenLine(p, primary, grace, k) == SwappedLine(p.lines, primary, grace, m, k)
  {
    hide LineOf, SwapToken, EachLasts, Pending, Start;
    if LineOf(p.lines[k]).Uri? {
      UniformInGraceIff(p, d, k);
      assert NthStart(p.offset, d, SegmentsBefore(p.lines, k)) < p.until <==> InGrace(p, k);
      hide InGrace, NthStart;
    }
  }

  lemma {:induction false} UniformRewritten(p: Playlist, primary: string, grace: string, d: real, m: nat, n: nat)
    requires d > 0.0 && EachLasts(p, d) && n <= |p.lines|
    requires forall i: nat :: i < m <==> NthStart(p.offset, d, i) < p.until
    ensures Rewritten(p, primary, grace, n) == SwappedFirst(p.lines, primary, grace, m, n)
  {
    hide NthStart, EachLasts, RewrittenLine, SwappedLine;
    if n > 0 {
      UniformRewritten(p, primary, grace, d, m, n - 1);
      LineSwapped(p, primary, grace, d, m, n - 1);
    }
  }

  /** What RewriteManifest serves of a playlist whose segments all last d seconds: m segments start within the grace
      period, and exactly the first m are swapped. */
  lemma UniformServed(p: Playlist, primary: string, grace: string, d: real, m: nat)
    requires d > 0.0 && EachLasts(p, d)
    requires forall i: nat :: i < m <==> NthStart(p.offset, d, i) < p.until
    ensures Served(p, primary, grace) == SwappedFirst(p.lines, primary, grace, m, |p.lines|)
  {
    UniformRewritten(p, primary, grace, d, m, |p.lines|);
    EarlyExitSoundIff(p, primary, grace);
    if p.offset >= p.until { NoneInGrace(p, primary, grace, d); }
    hide *;
  }

  /** So under a rule, from the body of the playlist. */
  lemma UniformBody(body: string, parse: FloatParser, rule: Rule, primary: string, d: real, m: nat)
    requires d > 0.0 && EachLasts(PlaylistOf(body, parse, rule), d)
    requires forall i: nat :: i < m <==> NthStart(SessionOffset(body, parse), d, i) < rule.durationSec as real
    ensures Served(PlaylistOf(body, parse, rule), primary, rule.token)
         == SwappedFirst(Lines(body), primary, rule.token, m, |Lines(body)|)
  {
    hide SessionOffset, Lines, Served, SwappedFirst, EachLasts, NthStart;
    UniformServed(PlaylistOf(body, parse, rule), primary, rule.token, d, m);
  }

  lemma NoneInGrace(p: Playlist, primary: string, grace: string, d: real)
    requires d > 0.0 && EachLasts(p, d) && p.offset >= p.until
    ensures forall k | 0 <= k < |p.lines| :: !Swaps(p, primary, grace, k)
  {
    hide EachLasts, LineOf, Holds, Pending, Start;
    forall k | 0 <= k < |p.lines| ensures !Swaps(p, primary, grace, k) {
      if LineOf(p.lines[k]).Uri? {
        UniformInGraceIff(p, d, k);
        NthNext(p.offset, d, SegmentsBefore(p.lines, k));
      }
    }
  }
}
