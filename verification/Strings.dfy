// Go's string searches and splits.
module Strings {
  import opened Basics

  function TrimPrefix(s: string, prefix: string): string
  {
    if prefix <= s then s[|prefix|..] else s
  }

  /** The first position of c, or -1. */
  function IndexOf(s: string, c: char): (i: int)
    ensures i == -1 || (0 <= i < |s| && s[i] == c)
  {
    if s == "" then -1
    else if s[0] == c then 0
    else
      var i := IndexOf(s[1..], c);
      if i == -1 then -1 else i + 1
  }

  lemma {:induction false} NothingBefore(s: string, c: char)
    ensures var i := IndexOf(s, c); c !in s[..if i == -1 then |s| else i]
  {
    if s != "" && s[0] != c {
      NothingBefore(s[1..], c);
      var i := IndexOf(s[1..], c);
      var n := if i == -1 then |s| else i + 1;
      assert s[..n] == [s[0]] + s[1..][..n - 1];
    }
  }

  lemma {:induction false} IndexAfter(before: string, c: char, rest: string)
    requires c !in before
    ensures IndexOf(before + [c] + rest, c) == |before|
  {
    var s := before + [c] + rest;
    if before != "" {
      assert s[1..] == before[1..] + [c] + rest;
      IndexAfter(before[1..], c, rest);
    }
  }

  /** The last position of c, or -1. */
  function LastIndexOf(s: string, c: char): (i: int)
    ensures i == -1 || (0 <= i < |s| && s[i] == c)
  {
    if s == "" then -1
    else if s[|s| - 1] == c then |s| - 1
    else LastIndexOf(s[..|s| - 1], c)
  }

  lemma {:induction false} NothingAfter(s: string, c: char, k: nat)
    requires LastIndexOf(s, c) < k < |s|
    ensures s[k] != c
  {
    if k < |s| - 1 { NothingAfter(s[..|s| - 1], c, k); }
  }

  datatype Cut = Cut(before: string, after: Option<string>)

  /** SplitN(s, c, 2): the parts around the first c. */
  function CutAt(s: string, c: char): Cut
  {
    var i := IndexOf(s, c);
    if i < 0 then Cut(s, None) else Cut(s[..i], Some(s[i + 1..]))
  }

  lemma CutParts(s: string, c: char)
    ensures var cut := CutAt(s, c);
      c !in cut.before && s == cut.before + if cut.after.Some? then [c] + cut.after.value else ""
  {
    NothingBefore(s, c);
  }

  lemma CutWithout(s: string, c: char)
    requires c !in s
    ensures CutAt(s, c) == Cut(s, None)
  {
  }

  lemma CutReadsBack(before: string, c: char, after: string)
    requires c !in before
    ensures CutAt(before + [c] + after, c) == Cut(before, Some(after))
  {
    IndexAfter(before, c, after);
    var s := before + [c] + after;
    assert s[..|before|] == before && s[|before| + 1..] == after;
  }

  // ---------------------------------------------------------------- substrings, trimming, lines

  /** The first position of sub in s. */
  function FindSub(s: string, sub: string): (at: Option<nat>)
    ensures at.Some? ==> at.value + |sub| <= |s|
  {
    if sub <= s then Some(0)
    else if s == "" then None
    else
      match FindSub(s[1..], sub)
      case None => None
      case Some(i) => Some(i + 1)
  }

  lemma {:induction false} FoundIsThere(s: string, sub: string)
    ensures var at := FindSub(s, sub); at.Some? ==> s[at.value..at.value + |sub|] == sub
  {
    if !(sub <= s) && s != "" {
      FoundIsThere(s[1..], sub);
      var at := FindSub(s[1..], sub);
      if at.Some? { assert s[at.value + 1..at.value + 1 + |sub|] == s[1..][at.value..at.value + |sub|]; }
    }
  }

  lemma {:induction false} FindSubFirst(s: string, sub: string, k: nat)
    requires k + |sub| <= |s| && s[k..k + |sub|] == sub
    ensures FindSub(s, sub).Some? && FindSub(s, sub).value <= k
  {
    if !(sub <= s) {
      assert s[1..][k - 1..k - 1 + |sub|] == sub;
      FindSubFirst(s[1..], sub, k - 1);
    }
  }

  /** Replace(s, sub, repl, 1). */
  function ReplaceFirst(s: string, sub: string, repl: string): string
  {
    match FindSub(s, sub)
    case None => s
    case Some(i) => s[..i] + repl + s[i + |sub|..]
  }

  function TrimLeft(s: string, cutset: string): string
  {
    if s != "" && s[0] in cutset then TrimLeft(s[1..], cutset) else s
  }

  function TrimRight(s: string, cutset: string): string
  {
    if s != "" && s[|s| - 1] in cutset then TrimRight(s[..|s| - 1], cutset) else s
  }

  /** SplitAfter(s, "\n"). */
  function Lines(s: string): seq<string>
  {
    var i := IndexOf(s, '\n');
    if i < 0 then [s] else [s[..i + 1]] + Lines(s[i + 1..])
  }

  function Join(parts: seq<string>): string
  {
    if parts == [] then "" else Join(parts[..|parts| - 1]) + parts[|parts| - 1]
  }

  lemma {:induction false} JoinPrepend(first: string, parts: seq<string>)
    ensures Join([first] + parts) == first + Join(parts)
  {
    if parts != [] {
      assert ([first] + parts)[..|parts|] == [first] + parts[..|parts| - 1];
      JoinPrepend(first, parts[..|parts| - 1]);
    }
  }

  /** Cutting a text into lines loses nothing. */
  lemma {:induction false} LinesJoin(s: string)
    ensures Join(Lines(s)) == s
  {
    hide IndexOf;
    var i := IndexOf(s, '\n');
    if i < 0 {
      JoinOne(s);
    } else {
      LinesJoin(s[i + 1..]);
      JoinPrepend(s[..i + 1], Lines(s[i + 1..]));
      hide Join;
      assert s == s[..i + 1] + s[i + 1..];
    }
  }

  lemma JoinOne(s: string)
    ensures Join([s]) == s
  {
  }

  /** A line as SplitAfter makes it: a newline at its end or none at all. */
  ghost predicate IsLine(line: string, newline: bool)
  {
    var n := if newline then |line| - 1 else |line|;
    n >= 0 && '\n' !in line[..n] && (newline ==> line[n] == '\n')
  }

  lemma LinesOfFirst(line: string, rest: string)
    requires IsLine(line, true)
    ensures Lines(line + rest) == [line] + Lines(rest)
  {
    var text := line[..|line| - 1];
    assert line == text + ['\n'];
    assert line + rest == text + ['\n'] + rest;
    IndexAfter(text, '\n', rest);
    assert (line + rest)[..|line|] == line && (line + rest)[|line|..] == rest;
  }

  lemma {:induction false} LinesAreLines(s: string, k: nat)
    requires k < |Lines(s)|
    ensures IsLine(Lines(s)[k], k < |Lines(s)| - 1)
  {
    NothingBefore(s, '\n');
    var i := IndexOf(s, '\n');
    if i < 0 {
      assert s[..|s|] == s;
    } else if k == 0 {
      assert s[..i + 1][..i] == s[..i];
    } else {
      LinesAreLines(s[i + 1..], k - 1);
    }
  }
}
