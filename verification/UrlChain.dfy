// Mods chained in a URL path, and how the proxied services peel them off one call at a time.
module UrlChain {
  import opened Basics
  import opened Strings

  const DEFAULT := "default"

  /** The service name of each configured mod, and of the default. */
  type Config = map<string, string>

  predicate IsMod(cfg: Config, kind: string) { kind != DEFAULT && kind in cfg }

  datatype Mod = Mod(kind: string, path: string, extra: string, name: string)

  datatype Source = Source(kind: string, name: string, infoHash: string, path: string, originPath: string,
                           mod: Option<Mod>)

  // ---------------------------------------------------------------- one mod

  datatype Segment = Segment(kind: string, extra: Option<string>, path: Option<string>)

  /** What follows a '~': a kind, an extra after ':', and a path from the first '/'. */
  function SegmentOf(last: string): Segment
  {
    var p := CutAt(last, '/');
    var t := CutAt(p.before, ':');
    Segment(t.before, t.after, p.after)
  }

  predicate ModAt(cfg: Config, path: string, i: nat)
    requires i < |path|
  {
    path[i] == '~' && IsMod(cfg, SegmentOf(path[i + 1..]).kind)
  }

  /** The last configured mod before position n. */
  function Rightmost(cfg: Config, path: string, n: nat): (at: Option<nat>)
    requires n <= |path|
    ensures at.Some? ==> at.value < n && ModAt(cfg, path, at.value)
  {
    if n == 0 then None
    else if ModAt(cfg, path, n - 1) then Some(n - 1)
    else Rightmost(cfg, path, n - 1)
  }

  /** The extra of the first segment at or after position i that has one. */
  function ExtraFrom(path: string, i: nat): string
    requires i <= |path|
    decreases |path| - i
  {
    if i == |path| then ""
    else if path[i] == '~' && SegmentOf(path[i + 1..]).extra.Some? then SegmentOf(path[i + 1..]).extra.value
    else ExtraFrom(path, i + 1)
  }

  function ModOf(cfg: Config, clean: string -> string, path: string, i: nat): Mod
    requires i < |path| && ModAt(cfg, path, i)
  {
    var segment := SegmentOf(path[i + 1..]);
    var tail := if segment.path.Some? then segment.path.value else "";
    Mod(segment.kind, clean("/" + tail), ExtraFrom(path, i), cfg[segment.kind])
  }

  /** The rightmost configured mod, and the path before it. */
  function Extracted(cfg: Config, clean: string -> string, path: string): (string, Option<Mod>)
  {
    match Rightmost(cfg, path, |path|)
    case None => (path, None)
    case Some(i) => (path[..i], Some(ModOf(cfg, clean, path, i)))
  }

  lemma {:induction false} ExtraSkips(path: string, i: nat, j: nat)
    requires i <= j <= |path| && forall k | i <= k < j :: path[k] != '~'
    ensures ExtraFrom(path, i) == ExtraFrom(path, j)
    decreases j - i
  {
    hide SegmentOf;
    if i < j { ExtraSkips(path, i + 1, j); }
  }

  lemma {:induction false} RightmostIs(cfg: Config, path: string, n: nat, i: nat)
    requires i < n <= |path| && ModAt(cfg, path, i) && NoneBetween(cfg, path, i + 1, n)
    ensures Rightmost(cfg, path, n) == Some(i)
  {
    hide ModAt;
    if i < n - 1 { RightmostIs(cfg, path, n - 1, i); }
  }

  /** No mod is further right than the one chosen. */
  lemma {:induction false} RightmostIsLast(cfg: Config, path: string, n: nat)
    requires n <= |path|
    ensures var at := Rightmost(cfg, path, n); NoneBetween(cfg, path, if at.Some? then at.value + 1 else 0, n)
  {
    hide ModAt;
    if n > 0 && Rightmost(cfg, path, n) != Some(n - 1) { RightmostIsLast(cfg, path, n - 1); }
  }

  ghost predicate NoneBetween(cfg: Config, path: string, from: nat, to: nat)
    requires to <= |path|
  {
    forall j | from <= j < to :: !ModAt(cfg, path, j)
  }

  /** Between two neighbouring tildes there is neither a mod nor an extra. */
  lemma NextTilde(cfg: Config, path: string, index: nat)
    requires index <= |path| && NoneBetween(cfg, path, index, |path|)
    ensures var at := LastIndexOf(path[..index], '~');
      && NoneBetween(cfg, path, at + 1, |path|) && ExtraFrom(path, at + 1) == ExtraFrom(path, index)
  {
    var at := LastIndexOf(path[..index], '~');
    forall j | at < j < index && j >= 0 ensures path[j] != '~' {
      NothingAfter(path[..index], '~', j);
    }
    ExtraSkips(path, at + 1, index);
    hide SegmentOf, IsMod;
  }

  lemma NoMod(cfg: Config, path: string)
    requires NoneBetween(cfg, path, 0, |path|) || '~' !in path
    ensures Rightmost(cfg, path, |path|) == None
  {
  }

  lemma OneFurther(cfg: Config, path: string, at: nat)
    requires at < |path| && NoneBetween(cfg, path, at + 1, |path|) && !ModAt(cfg, path, at)
    ensures NoneBetween(cfg, path, at, |path|)
  {
  }

  lemma Seen(cfg: Config, path: string, i: nat, e: string)
    requires i < |path| && path[i] == '~' && e == ExtraFrom(path, i + 1)
    ensures var segment := SegmentOf(path[i + 1..]);
      && ExtraFrom(path, i) == (if segment.extra.Some? then segment.extra.value else e)
      && (ModAt(cfg, path, i) <==> IsMod(cfg, segment.kind))
  {
  }

  method ExtractMod(cfg: Config, clean: string -> string, path: string) returns (newPath: string, mod: Option<Mod>)
    ensures (newPath, mod) == Extracted(cfg, clean, path)
  {
    if '~' !in path {
      NoMod(cfg, path);
      return path, None;
    }
    var index, exist := |path|, false;
    var segment, e := Segment("", None, None), "";
    hide ModAt, IsMod, SegmentOf, Rightmost;
    while !exist
      invariant 0 <= index <= |path| && e == ExtraFrom(path, index)
      invariant NoneBetween(cfg, path, if exist then index + 1 else index, |path|)
      invariant exist ==> index < |path| && ModAt(cfg, path, index) && segment == SegmentOf(path[index + 1..])
      decreases if exist then 0 else 1, index
    {
      NextTilde(cfg, path, index);
      var at := LastIndexOf(path[..index], '~');
      hide ExtraFrom, NoneBetween;
      if at == -1 {
        NoMod(cfg, path);
        return path, None;
      }
      Seen(cfg, path, at, e);
      index := at;
      segment := SegmentOf(path[index + 1..]);
      if segment.extra.Some? {
        e := segment.extra.value;
      }
      if IsMod(cfg, segment.kind) {
        exist := true;
      } else {
        OneFurther(cfg, path, index);
      }
    }
    RightmostIs(cfg, path, |path|, index);
    newPath := path[..index];
    var modPath := clean("/" + if segment.path.Some? then segment.path.value else "");
    mod := Some(Mod(segment.kind, modPath, e, cfg[segment.kind]));
  }

  predicate HasExtra(path: string, i: nat)
    requires i < |path|
  {
    path[i] == '~' && SegmentOf(path[i + 1..]).extra.Some?
  }

  /** The first segment to the right of position i that has an extra, mod or not. */
  ghost predicate NextWithExtra(path: string, i: nat, j: nat)
  {
    i < j < |path| && HasExtra(path, j) && forall x | i < x < j :: !HasExtra(path, x)
  }

  lemma {:induction false} ExtraFromIs(path: string, i: nat, j: nat)
    requires i < j <= |path| && (forall x | i < x < j :: !HasExtra(path, x)) && (j < |path| ==> HasExtra(path, j))
    ensures ExtraFrom(path, i + 1) == if j < |path| then SegmentOf(path[j + 1..]).extra.value else ""
    decreases j - i
  {
    hide SegmentOf;
    if i + 1 < j {
      assert !HasExtra(path, i + 1);
      ExtraFromIs(path, i + 1, j);
    }
  }

  lemma {:induction false} FindExtra(path: string, i: nat, k: nat) returns (j: nat)
    requires i < k <= |path| && forall x | i < x < k :: !HasExtra(path, x)
    ensures i < j <= |path| && (forall x | i < x < j :: !HasExtra(path, x)) && (j < |path| ==> HasExtra(path, j))
    decreases |path| - k
  {
    hide HasExtra;
    if k == |path| || HasExtra(path, k) { j := k; } else { j := FindExtra(path, i, k + 1); }
  }

  lemma NothingCarriedIff(path: string, i: nat)
    requires i < |path|
    ensures ExtraFrom(path, i + 1) == "" <==>
      forall j | NextWithExtra(path, i, j) :: SegmentOf(path[j + 1..]).extra == Some("")
  {
    var j := FindExtra(path, i, i + 1);
    ExtraFromIs(path, i, j);
    hide SegmentOf, ExtraFrom, HasExtra;
    forall x: nat | NextWithExtra(path, i, x) ensures x == j {
      assert HasExtra(path, x);
      if x > j { assert false; }
    }
    assert j < |path| ==> NextWithExtra(path, i, j);
    hide NextWithExtra;
  }

  /** A mod gets its own extra, or none if it has none, exactly when it has one or no segment to its right hands one
      on: the first there that has an extra, if any, has the empty one. */
  lemma OwnExtraIff(cfg: Config, clean: string -> string, path: string, i: nat)
    requires i < |path| && ModAt(cfg, path, i)
    ensures var own := SegmentOf(path[i + 1..]).extra;
      ModOf(cfg, clean, path, i).extra == (if own.Some? then own.value else "") <==>
        own.Some? || forall j | NextWithExtra(path, i, j) :: SegmentOf(path[j + 1..]).extra == Some("")
  {
    hide SegmentOf, NextWithExtra, IsMod;
    NothingCarriedIff(path, i);
  }

  lemma ForeignCarried(path: string)
    requires path == "/f~vod/a~x:1"
    ensures ExtraFrom(path, 2) == "1"
  {
    ForeignSegments(path);
    ExtraSkips(path, 3, 8);
    hide SegmentOf;
  }

  lemma ForeignModOf(cfg: Config, clean: string -> string, path: string)
    requires cfg == map[DEFAULT := "web", "vod" := "nginx-vod"] && path == "/f~vod/a~x:1" && ModAt(cfg, path, 2)
    ensures ModOf(cfg, clean, path, 2) == Mod("vod", clean("/a~x:1"), "1", "nginx-vod")
  {
    ForeignSegments(path);
    ForeignCarried(path);
    assert "/" + "a~x:1" == "/a~x:1";
    hide SegmentOf, ModAt, ExtraFrom;
  }

  /** A mod with the extra of a segment that is no mod. */
  lemma ForeignExtra(cfg: Config, clean: string -> string, path: string)
    requires cfg == map[DEFAULT := "web", "vod" := "nginx-vod"] && path == "/f~vod/a~x:1"
    ensures Extracted(cfg, clean, path) == ("/f", Some(Mod("vod", clean("/a~x:1"), "1", "nginx-vod")))
  {
    ForeignMod(cfg, path);
    ForeignModOf(cfg, clean, path);
    assert path[..2] == "/f";
    hide SegmentOf, ModAt, Rightmost, ExtraFrom, ModOf;
  }

  lemma ForeignMod(cfg: Config, path: string)
    requires cfg == map[DEFAULT := "web", "vod" := "nginx-vod"] && path == "/f~vod/a~x:1"
    ensures Rightmost(cfg, path, |path|) == Some(2)
  {
    ForeignSegments(path);
    hide SegmentOf;
    assert ModAt(cfg, path, 2) && !ModAt(cfg, path, 8);
    forall j | 3 <= j < |path| ensures !ModAt(cfg, path, j) {
      assert path[j] == '~' ==> j == 8;
    }
    hide ModAt;
    RightmostIs(cfg, path, |path|, 2);
  }

  lemma ForeignSegments(path: string)
    requires path == "/f~vod/a~x:1"
    ensures SegmentOf(path[3..]) == Segment("vod", None, Some("a~x:1"))
    ensures SegmentOf(path[9..]) == Segment("x", Some("1"), None)
  {
    assert path[3..] == "vod" + ['/'] + "a~x:1" && path[9..] == "x" + [':'] + "1";
    CutReadsBack("vod", '/', "a~x:1");
    CutWithout("vod", ':');
    CutWithout("x:1", '/');
    CutReadsBack("x", ':', "1");
  }

  // ---------------------------------------------------------------- the whole path

  /** Five hex digits in a row. */
  predicate CheckHash(hash: string)
  {
    exists i | 0 <= i <= |hash| - 5 :: FiveHexAt(hash, i)
  }

  predicate FiveHexAt(s: string, i: nat)
    requires i + 5 <= |s|
  {
    forall j | i <= j < i + 5 :: '0' <= s[j] <= '9' || 'a' <= s[j] <= 'f'
  }

  function OriginOf(cfg: Config, path: string): string
  {
    match Rightmost(cfg, path, |path|)
    case None => path
    case Some(i) => OriginOf(cfg, path[..i])
  }

  /** The mods of a path, the last one first. */
  function ModsOf(cfg: Config, clean: string -> string, path: string): seq<Mod>
  {
    match Rightmost(cfg, path, |path|)
    case None => []
    case Some(i) => [ModOf(cfg, clean, path, i)] + ModsOf(cfg, clean, path[..i])
  }

  /** Crash is a default service that is not configured. */
  datatype Parsed = Ok(source: Source) | EmptyUrl | EmptyHash | WrongHash | Crash

  function PathOf(cut: Cut): string { "/" + if cut.after.Some? then cut.after.value else "" }

  function ParseOf(cfg: Config, clean: string -> string, urlPath: string): Parsed
  {
    if urlPath == "" then EmptyUrl
    else
      var p := CutAt(urlPath[1..], '/');
      if p.before == "" then EmptyHash
      else
        var kind := if IsMod(cfg, p.before) then p.before else DEFAULT;
        if kind !in cfg then Crash
        else if kind == DEFAULT && !CheckHash(p.before) then WrongHash
        else
          var (newPath, mod) := Extracted(cfg, clean, PathOf(p));
          Ok(Source(kind, cfg[kind], p.before, newPath, OriginOf(cfg, PathOf(p)), mod))
  }

  method Parse(cfg: Config, clean: string -> string, urlPath: string) returns (parsed: Parsed)
    ensures parsed == ParseOf(cfg, clean, urlPath)
  {
    if urlPath == "" {
      return EmptyUrl;
    }
    var p := CutAt(urlPath[1..], '/');
    var hash := p.before;
    if hash == "" {
      return EmptyHash;
    }
    var kind := DEFAULT;
    if IsMod(cfg, hash) {
      kind := hash;
    }
    if kind !in cfg {
      return Crash;
    }
    if kind == DEFAULT && !CheckHash(hash) {
      return WrongHash;
    }
    var path := "/";
    if p.after.Some? {
      path := path + p.after.value;
    }
    var newPath, mod := ExtractMod(cfg, clean, path);
    var originPath := ExtractAll(cfg, clean, newPath);
    hide CutAt, CheckHash, ModOf;
    parsed := Ok(Source(kind, cfg[kind], hash, newPath, originPath, mod));
  }

  /** The second loop of the parser: mods are extracted until none is found. */
  method ExtractAll(cfg: Config, clean: string -> string, path: string) returns (originPath: string)
    ensures originPath == OriginOf(cfg, path)
  {
    hide ModOf;
    var mod: Option<Mod>;
    originPath, mod := ExtractMod(cfg, clean, path);
    while mod.Some?
      invariant OriginOf(cfg, originPath) == OriginOf(cfg, path)
      invariant mod.None? ==> originPath == OriginOf(cfg, originPath)
      decreases |originPath|, if mod.Some? then 1 else 0
    {
      originPath, mod := ExtractMod(cfg, clean, originPath);
    }
  }

  // ---------------------------------------------------------------- peeling the chain

  /** The path of the URL that a mod's service is told to fetch its source from. */
  function SourceUrl(src: Source): string { "/" + src.infoHash + src.path }

  /** Parsing, and then k times over the source URL of what was parsed. */
  function Hop(cfg: Config, clean: string -> string, urlPath: string, k: nat): Parsed
  {
    if k == 0 then ParseOf(cfg, clean, urlPath)
    else
      match Hop(cfg, clean, urlPath, k - 1)
      case Ok(src) => ParseOf(cfg, clean, SourceUrl(src))
      case failed => failed
  }

  lemma {:induction false} OriginIsPrefix(cfg: Config, clean: string -> string, path: string)
    ensures OriginOf(cfg, path) <= path && ModsOf(cfg, clean, OriginOf(cfg, path)) == []
    ensures ModsOf(cfg, clean, path) == [] <==> path == OriginOf(cfg, path)
  {
    var at := Rightmost(cfg, path, |path|);
    if at.Some? { OriginIsPrefix(cfg, clean, path[..at.value]); }
  }

  /** What makes the hash of a source acceptable to the parser. */
  predicate Accepted(cfg: Config, src: Source)
  {
    && src.infoHash != "" && '/' !in src.infoHash
    && src.kind == (if IsMod(cfg, src.infoHash) then src.infoHash else DEFAULT)
    && src.kind in cfg && src.name == cfg[src.kind] && (src.kind == DEFAULT ==> CheckHash(src.infoHash))
  }

  /** The source URL of a parsed source parses to the same hash, kind and name, and to the path it was given. */
  lemma SourceUrlReadsBack(cfg: Config, clean: string -> string, src: Source)
    requires Accepted(cfg, src) && src.path != "" && src.path[0] == '/'
    ensures ParseOf(cfg, clean, SourceUrl(src)) == Ok(src.(
      path := Extracted(cfg, clean, src.path).0, mod := Extracted(cfg, clean, src.path).1,
      originPath := OriginOf(cfg, src.path)))
  {
    assert SourceUrl(src)[1..] == src.infoHash + ['/'] + src.path[1..];
    CutReadsBack(src.infoHash, '/', src.path[1..]);
    assert "/" + src.path[1..] == src.path;
  }

  /** The source after k hops, when the chain of the first one is mods. */
  ghost predicate AfterHops(cfg: Config, clean: string -> string, first: Source, mods: seq<Mod>, k: nat, src: Source)
  {
    && src == first.(path := src.path, mod := if k < |mods| then Some(mods[k]) else None)
    && src.path != "" && src.path[0] == '/' && OriginOf(cfg, src.path) == first.originPath
    && ModsOf(cfg, clean, src.path) == (if k < |mods| then mods[k + 1..] else [])
    && (k >= |mods| ==> src.path == first.originPath)
  }

  lemma NextHop(cfg: Config, clean: string -> string, first: Source, mods: seq<Mod>, k: nat, src: Source)
    requires Accepted(cfg, first) && AfterHops(cfg, clean, first, mods, k, src)
    ensures ParseOf(cfg, clean, SourceUrl(src)).Ok?
    ensures AfterHops(cfg, clean, first, mods, k + 1, ParseOf(cfg, clean, SourceUrl(src)).source)
  {
    SourceUrlReadsBack(cfg, clean, src);
    OneMod(cfg, clean, src.path);
    hide ParseOf, Extracted, ModsOf, OriginOf, SourceUrl;
  }

  ghost predicate Peeled(cfg: Config, clean: string -> string, urlPath: string, k: nat)
    requires ParseOf(cfg, clean, urlPath).Ok?
  {
    && Hop(cfg, clean, urlPath, k).Ok?
    && AfterHops(cfg, clean, ParseOf(cfg, clean, urlPath).source, Chain(cfg, clean, urlPath), k,
                 Hop(cfg, clean, urlPath, k).source)
  }

  lemma PeelOneMore(cfg: Config, clean: string -> string, urlPath: string, k: nat)
    requires ParseOf(cfg, clean, urlPath).Ok? && Peeled(cfg, clean, urlPath, k)
    ensures Peeled(cfg, clean, urlPath, k + 1)
  {
    FirstHop(cfg, clean, urlPath);
    HopStep(cfg, clean, urlPath, k + 1);
    hide AfterHops, ParseOf, Chain, Hop, Accepted, SourceUrl;
    NextHop(cfg, clean, ParseOf(cfg, clean, urlPath).source, Chain(cfg, clean, urlPath), k,
            Hop(cfg, clean, urlPath, k).source);
  }

  /** Every hop keeps the hash and the origin path and removes one mod, from the last to the first; after as many hops
      as there are mods none is left and the path is the origin path. */
  lemma {:induction false} EveryHopPeelsOneMod(cfg: Config, clean: string -> string, urlPath: string, k: nat)
    requires ParseOf(cfg, clean, urlPath).Ok?
    ensures Peeled(cfg, clean, urlPath, k)
  {
    if k == 0 {
      FirstHop(cfg, clean, urlPath);
      hide ParseOf, AfterHops, Chain;
    } else {
      EveryHopPeelsOneMod(cfg, clean, urlPath, k - 1);
      hide Peeled;
      PeelOneMore(cfg, clean, urlPath, k - 1);
    }
  }

  lemma HopStep(cfg: Config, clean: string -> string, urlPath: string, k: nat)
    ensures Hop(cfg, clean, urlPath, 0) == ParseOf(cfg, clean, urlPath)
    ensures k > 0 && Hop(cfg, clean, urlPath, k - 1).Ok? ==>
      Hop(cfg, clean, urlPath, k) == ParseOf(cfg, clean, SourceUrl(Hop(cfg, clean, urlPath, k - 1).source))
  {
  }

  function Chain(cfg: Config, clean: string -> string, urlPath: string): seq<Mod>
  {
    if urlPath == "" then [] else ModsOf(cfg, clean, PathOf(CutAt(urlPath[1..], '/')))
  }

  lemma OneMod(cfg: Config, clean: string -> string, path: string)
    requires path != "" && path[0] == '/'
    ensures var (newPath, mod) := Extracted(cfg, clean, path); var mods := ModsOf(cfg, clean, path);
      && mod == (if mods == [] then None else Some(mods[0]))
      && ModsOf(cfg, clean, newPath) == (if mods == [] then [] else mods[1..])
      && OriginOf(cfg, newPath) == OriginOf(cfg, path) && newPath != "" && newPath[0] == '/'
      && (mods == [] ==> newPath == OriginOf(cfg, path))
  {
  }

  lemma FirstHop(cfg: Config, clean: string -> string, urlPath: string)
    requires ParseOf(cfg, clean, urlPath).Ok?
    ensures var src := ParseOf(cfg, clean, urlPath).source;
      Accepted(cfg, src) && AfterHops(cfg, clean, src, Chain(cfg, clean, urlPath), 0, src)
  {
    var cut := CutAt(urlPath[1..], '/');
    CutParts(urlPath[1..], '/');
    OneMod(cfg, clean, PathOf(cut));
    hide CutAt, Extracted, ModsOf, OriginOf, CheckHash;
  }

  /** A path has no more mods than tildes, so the hops come to an end. */
  lemma {:induction false} NoMoreModsThanTildes(cfg: Config, clean: string -> string, path: string)
    ensures |ModsOf(cfg, clean, path)| <= multiset(path)['~']
  {
    var at := Rightmost(cfg, path, |path|);
    hide Rightmost, SegmentOf, IsMod, ModOf, ExtraFrom;
    if at.Some? {
      NoMoreModsThanTildes(cfg, clean, path[..at.value]);
      assert path == path[..at.value] + [path[at.value]] + path[at.value + 1..];
    }
  }
}
