// URLs that are written as a hash, an origin path and a chain of mods are parsed into just these.
module ChainedUrls {
  import opened Basics
  import opened Strings
  import opened UrlChain

  /** One mod as it is written: its kind, and its extra and path if it has them. */
  datatype Link = Link(kind: string, extra: Option<string>, path: Option<string>)

  function Lead(c: string, text: Option<string>): string { if text.Some? then c + text.value else "" }

  function Text(l: Link): string { "~" + (l.kind + Lead(":", l.extra) + Lead("/", l.path)) }

  function Written(origin: string, links: seq<Link>): string
  {
    if links == [] then origin else Written(origin, links[..|links| - 1]) + Text(links[|links| - 1])
  }

  function OrNone(text: Option<string>): string { if text.Some? then text.value else "" }

  /** A configured kind, in characters that do not end it. */
  predicate Proper(cfg: Config, l: Link)
  {
    && l.kind in cfg && l.kind != "default" && '~' !in l.kind && '/' !in l.kind && ':' !in l.kind
    && '~' !in OrNone(l.extra) && '/' !in OrNone(l.extra) && '~' !in OrNone(l.path)
  }

  function ModFor(cfg: Config, clean: string -> string, l: Link): Mod
    requires Proper(cfg, l)
  {
    Mod(l.kind, clean("/" + OrNone(l.path)), OrNone(l.extra), cfg[l.kind])
  }

  lemma HeadReadsBack(kind: string, extra: Option<string>)
    requires ':' !in kind
    ensures CutAt(kind + Lead(":", extra), ':') == Cut(kind, extra)
  {
    if extra.Some? {
      CutReadsBack(kind, ':', extra.value);
      assert kind + Lead(":", extra) == kind + [':'] + extra.value;
    } else {
      CutWithout(kind, ':');
      assert kind + Lead(":", extra) == kind;
    }
  }

  lemma SegmentReadsBack(l: Link)
    requires '/' !in l.kind && ':' !in l.kind && '/' !in OrNone(l.extra)
    ensures SegmentOf(l.kind + Lead(":", l.extra) + Lead("/", l.path)) == Segment(l.kind, l.extra, l.path)
  {
    var head := l.kind + Lead(":", l.extra);
    assert '/' !in head;
    HeadReadsBack(l.kind, l.extra);
    if l.path.Some? {
      CutReadsBack(head, '/', l.path.value);
      assert head + Lead("/", l.path) == head + ['/'] + l.path.value;
    } else {
      CutWithout(head, '/');
      assert head + Lead("/", l.path) == head;
    }
    hide CutAt;
  }

  lemma LastIsRightmost(cfg: Config, before: string, l: Link)
    requires Proper(cfg, l)
    ensures var path, i := before + Text(l), |before|;
      && path[i + 1..] == l.kind + Lead(":", l.extra) + Lead("/", l.path)
      && ModAt(cfg, path, i) && (forall j | i < j < |path| :: path[j] != '~') && Rightmost(cfg, path, |path|) == Some(i)
  {
    var path, i, rest := before + Text(l), |before|, l.kind + Lead(":", l.extra) + Lead("/", l.path);
    assert path[i + 1..] == rest;
    SegmentReadsBack(l);
    assert '~' !in rest;
    forall j | i < j < |path| ensures path[j] != '~' { assert path[j] == rest[j - i - 1]; }
    hide SegmentOf;
    assert ModAt(cfg, path, i);
    RightmostIs(cfg, path, |path|, i);
  }

  /** The last mod that is written is the one extracted, with its own extra and path, and the rest is left. */
  lemma ExtractsLast(cfg: Config, clean: string -> string, before: string, l: Link)
    requires Proper(cfg, l)
    ensures Extracted(cfg, clean, before + Text(l)) == (before, Some(ModFor(cfg, clean, l)))
  {
    var path, i := before + Text(l), |before|;
    LastIsRightmost(cfg, before, l);
    OwnExtra(cfg, before, l);
    SegmentReadsBack(l);
    assert path[..i] == before;
    hide SegmentOf, Rightmost, Text, IsMod, ExtraFrom, ModAt;
  }

  lemma OwnExtra(cfg: Config, before: string, l: Link)
    requires Proper(cfg, l)
    ensures ExtraFrom(before + Text(l), |before|) == OrNone(l.extra)
  {
    var path, i := before + Text(l), |before|;
    LastIsRightmost(cfg, before, l);
    SegmentReadsBack(l);
    ExtraSkips(path, i + 1, |path|);
    hide SegmentOf, Rightmost, Text, IsMod;
  }

  /** A path without a tilde has no mod. */
  lemma ExtractsNone(cfg: Config, clean: string -> string, origin: string)
    requires '~' !in origin
    ensures Extracted(cfg, clean, origin) == (origin, None) && OriginOf(cfg, origin) == origin
  {
    NoMod(cfg, origin);
  }

  lemma {:induction false} OriginReadsBack(cfg: Config, origin: string, links: seq<Link>)
    requires '~' !in origin && forall l | l in links :: Proper(cfg, l)
    ensures OriginOf(cfg, Written(origin, links)) == origin
  {
    if links == [] {
      ExtractsNone(cfg, (s: string) => s, origin);
    } else {
      var n := |links| - 1;
      assert links[n] in links;
      OriginReadsBack(cfg, origin, links[..n]);
      LastIsRightmost(cfg, Written(origin, links[..n]), links[n]);
      assert Written(origin, links)[..|Written(origin, links[..n])|] == Written(origin, links[..n]);
      hide Text, Rightmost, Proper;
    }
  }

  /** Five lower-case hex digits in a row, wherever they stand. */
  ghost predicate HasHexRun(hash: string)
  {
    exists a, run, b :: hash == a + run + b && IsHexRun(run)
  }

  predicate IsHexRun(run: string) { |run| == 5 && forall c | c in run :: c in "0123456789abcdef" }

  lemma HashIff(hash: string)
    ensures CheckHash(hash) <==> HasHexRun(hash)
  {
    if CheckHash(hash) {
      var i :| 0 <= i <= |hash| - 5 && FiveHexAt(hash, i);
      var run := hash[i..i + 5];
      forall c | c in run ensures c in "0123456789abcdef" { HexIs(c); }
      assert hash == hash[..i] + run + hash[i + 5..] && IsHexRun(run);
    }
    if HasHexRun(hash) {
      var a, run, b :| hash == a + run + b && IsHexRun(run);
      forall j | |a| <= j < |a| + 5 ensures '0' <= hash[j] <= '9' || 'a' <= hash[j] <= 'f' {
        assert hash[j] == run[j - |a|] && hash[j] in run;
        HexIs(hash[j]);
      }
      assert FiveHexAt(hash, |a|);
    }
  }

  lemma HexIs(c: char)
    ensures c in "0123456789abcdef" <==> '0' <= c <= '9' || 'a' <= c <= 'f'
  {
    var digits := "0123456789abcdef";
    if '0' <= c <= '9' { assert digits[c as int - '0' as int] == c; }
    if 'a' <= c <= 'f' { assert digits[10 + c as int - 'a' as int] == c; }
  }

  /** A URL of a hash, an origin path and mods is parsed to that hash, that origin path, and the last of these mods; the
      path that is left has the others. It is refused exactly when the hash is no mod and has no five hex digits in a
      row. */
  lemma ParsesWritten(cfg: Config, clean: string -> string, hash: string, origin: string, links: seq<Link>)
    requires "default" in cfg && hash != "" && '/' !in hash && forall l | l in links :: Proper(cfg, l)
    requires '~' !in origin && origin != "" && origin[0] == '/'
    ensures var n, asMod := |links| - 1, hash in cfg && hash != "default";
      ParseOf(cfg, clean, "/" + hash + Written(origin, links)) ==
        if !asMod && !HasHexRun(hash) then WrongHash
        else
          var kind := if asMod then hash else "default";
          Ok(Source(kind, cfg[kind], hash, if links == [] then origin else Written(origin, links[..n]), origin,
                    if links == [] then None else Some(ModFor(cfg, clean, links[n]))))
  {
    WrittenStarts(origin, links);
    OriginReadsBack(cfg, origin, links);
    if links == [] {
      ExtractsNone(cfg, clean, origin);
    } else {
      assert links[|links| - 1] in links;
      ExtractsLast(cfg, clean, Written(origin, links[..|links| - 1]), links[|links| - 1]);
    }
    hide HasHexRun, Extracted, OriginOf, Proper, ModFor, ParseOf;
    ParsesPath(cfg, clean, hash, Written(origin, links));
  }

  lemma ParsesPath(cfg: Config, clean: string -> string, hash: string, path: string)
    requires "default" in cfg && hash != "" && '/' !in hash && path != "" && path[0] == '/'
    ensures var asMod := hash in cfg && hash != "default";
      ParseOf(cfg, clean, "/" + hash + path) ==
        if !asMod && !HasHexRun(hash) then WrongHash
        else
          var kind, (left, mod) := if asMod then hash else "default", Extracted(cfg, clean, path);
          Ok(Source(kind, cfg[kind], hash, left, OriginOf(cfg, path), mod))
  {
    assert ("/" + hash + path)[1..] == hash + ['/'] + path[1..] && "/" + path[1..] == path;
    CutReadsBack(hash, '/', path[1..]);
    HashIff(hash);
    hide CutAt, CheckHash, HasHexRun, Extracted, OriginOf;
  }

  lemma {:induction false} WrittenStarts(origin: string, links: seq<Link>)
    requires origin != "" && origin[0] == '/'
    ensures Written(origin, links) != "" && Written(origin, links)[0] == '/'
  {
    if links != [] { WrittenStarts(origin, links[..|links| - 1]); }
  }

  /** An empty URL and an empty hash are refused too, and a hash that needs the default service crashes without one. */
  lemma ParsesNothing(cfg: Config, clean: string -> string, hash: string, rest: string)
    ensures ParseOf(cfg, clean, "") == EmptyUrl
    ensures ParseOf(cfg, clean, "/") == EmptyHash && ParseOf(cfg, clean, "//" + rest) == EmptyHash
    ensures hash != "" && '/' !in hash && hash !in cfg && "default" !in cfg ==>
      ParseOf(cfg, clean, "/" + hash) == ParseOf(cfg, clean, "/" + hash + "/" + rest) == Crash
  {
    if '/' !in hash {
      assert ("/" + hash)[1..] == hash && ("/" + hash + "/" + rest)[1..] == hash + ['/'] + rest;
      CutWithout(hash, '/');
      CutReadsBack(hash, '/', rest);
    }
    assert "/"[1..] == "" && ("//" + rest)[1..] == "" + ['/'] + rest;
    CutReadsBack("", '/', rest);
  }
}
