// Which pod serves an info hash: nested equal intervals over nodes and their pods.
module Placement {
  import opened Basics
  import opened Sorting

  datatype Address = Address(ip: string, node: string)

  /** The five leading hex digits of an info hash, and the span they are scaled to. */
  const LAST_PREFIX := 0xfffff
  const TOTAL := 1048575 * 1000

  predicate IsHexDigit(c: char) { '0' <= c <= '9' || 'a' <= c <= 'f' }

  predicate IsInfoHash(s: string)
  {
    5 <= |s| <= 40 && forall c | c in s :: IsHexDigit(c)
  }

  /** What ParseInt takes for a digit in base 16. */
  predicate IsAnyHexDigit(c: char) { IsHexDigit(c) || 'A' <= c <= 'F' }

  function DigitValue(c: char): (v: nat)
    requires IsAnyHexDigit(c)
    ensures v < 16
  {
    if c <= '9' then (c - '0') as int else if c <= 'F' then (c - 'A') as int + 10 else (c - 'a') as int + 10
  }

  function HexValue(s: string): nat
    requires forall c | c in s :: IsAnyHexDigit(c)
  {
    if s == "" then 0
    else
      assert s[|s| - 1] in s;
      16 * HexValue(s[..|s| - 1]) + DigitValue(s[|s| - 1])
  }

  /** ParseInt in base 16 on the first five characters: a sign may come first. */
  function ParsePrefix(infoHash: string): Option<int>
    requires |infoHash| >= 5
  {
    var digits := if infoHash[0] in "+-" then infoHash[1..5] else infoHash[..5];
    if exists c | c in digits :: !IsAnyHexDigit(c) then None
    else
      var value: int := HexValue(digits);
      Some(if infoHash[0] == '-' then -value else value)
  }

  lemma InfoHashParses(infoHash: string)
    requires IsInfoHash(infoHash)
    ensures ParsePrefix(infoHash) == Some(Prefix(infoHash))
  {
    assert infoHash[0] in infoHash;
  }

  function Prefix(infoHash: string): nat
    requires IsInfoHash(infoHash)
  {
    HexValue(infoHash[..5])
  }

  function Num(infoHash: string): nat
    requires IsInfoHash(infoHash)
  {
    Prefix(infoHash) * 1000
  }

  lemma {:induction false} HexValueBelow(s: string, bound: nat)
    requires (forall c | c in s :: IsAnyHexDigit(c)) && bound == Power16(|s|)
    ensures HexValue(s) < bound
  {
    if s != "" {
      assert s[|s| - 1] in s;
      HexValueBelow(s[..|s| - 1], Power16(|s| - 1));
    }
  }

  function Power16(n: nat): nat { if n == 0 then 1 else 16 * Power16(n - 1) }

  lemma PrefixInRange(infoHash: string)
    requires IsInfoHash(infoHash)
    ensures Prefix(infoHash) <= LAST_PREFIX
  {
    assert Power16(5) == 16 * 16 * 16 * 16 * 16;
    HexValueBelow(infoHash[..5], Power16(5));
  }

  // ---------------------------------------------------------------- equal intervals over pods

  function HashIndex(num: nat, n: nat): Option<nat>
    requires n > 0
  {
    var interval := TOTAL / n;
    if interval > 0 && num / interval < n then Some(num / interval) else None
  }

  lemma QuotientBounds(num: nat, d: nat)
    requires d > 0
    ensures num / d * d <= num < (num / d + 1) * d
    ensures num % d == num - num / d * d
  {
  }

  lemma MulGrows(a: int, b: int, d: nat)
    requires a <= b
    ensures a * d <= b * d
  {
  }

  lemma Quotient(num: nat, d: nat, q: nat)
    requires d > 0 && q * d <= num < (q + 1) * d
    ensures num / d == q
  {
    QuotientBounds(num, d);
    if num / d < q {
      MulGrows(num / d + 1, q, d);
    } else if num / d > q {
      MulGrows(q + 1, num / d, d);
    }
  }

  /** The scan of distributeByHash; a signed prefix can make num negative. */
  method ScanPods(num: int, pods: seq<Address>) returns (pick: Option<Address>)
    requires pods != []
    ensures num < 0 ==> pick == Some(pods[0])
    ensures num >= 0 ==> pick == match HashIndex(num, |pods|) case Some(i) => Some(pods[i]) case None => None
  {
    var interval := TOTAL / |pods|;
    for i := 0 to |pods|
      invariant i > 0 ==> num >= 0
      invariant num >= 0 ==> num >= i * interval
    {
      assert (i + 1) * interval == i * interval + interval;
      if num < (i + 1) * interval {
        if num >= 0 { Quotient(num, interval, i); }
        return Some(pods[i]);
      }
    }
    if interval > 0 && num / interval < |pods| {
      QuotientBounds(num, interval);
      MulGrows(num / interval + 1, |pods|, interval);
      assert false;
    }
    pick := None;
  }

  /** With up to a thousand pods every prefix but the last has one. */
  lemma OnlyLastPrefixUnserved(h: nat, n: nat)
    requires h <= LAST_PREFIX && 0 < n <= 1000
    ensures HashIndex(h * 1000, n) == None <==> h == LAST_PREFIX
  {
    var interval := TOTAL / n;
    QuotientBounds(TOTAL, n);
    assert TOTAL - n < n * interval <= TOTAL;
    QuotientBounds(h * 1000, interval);
    var q := h * 1000 / interval;
    if q < n {
      MulGrows(q + 1, n, interval);
    } else {
      MulGrows(n, q, interval);
    }
  }

  /** The prefixes pod i of n is given. */
  ghost function PrefixesOf(i: nat, n: nat): set<nat>
    requires n > 0
  {
    set h: nat | h <= LAST_PREFIX && HashIndex(h * 1000, n) == Some(i)
  }

  function Thousands(x: nat): nat { (x + 999) / 1000 }

  predicate Within(lo: nat, h: nat, hi: nat) { lo <= h < hi }

  ghost function Span(lo: nat, hi: nat): set<nat>
  {
    set h: nat | h < hi && Within(lo, h, hi)
  }

  lemma {:induction false} SizeOfSpan(lo: nat, hi: nat)
    requires lo <= hi
    ensures |Span(lo, hi)| == hi - lo
    decreases hi
  {
    if lo < hi {
      SizeOfSpan(lo, hi - 1);
      forall h: nat ensures h in Span(lo, hi) <==> h in Span(lo, hi - 1) + {hi - 1} {
        assert Within(lo, h, hi) <==> Within(lo, h, hi - 1) || h == hi - 1;
      }
      assert Span(lo, hi) == Span(lo, hi - 1) + {hi - 1};
    } else {
      assert Span(lo, hi) == {};
    }
  }

  lemma PrefixesAreSpan(i: nat, n: nat)
    requires i < n && TOTAL / n > 0
    ensures var L := TOTAL / n; PrefixesOf(i, n) == Span(Thousands(i * L), Thousands((i + 1) * L))
  {
    var L := TOTAL / n;
    QuotientBounds(TOTAL, n);
    MulGrows(i + 1, n, L);
    var span := Span(Thousands(i * L), Thousands((i + 1) * L));
    forall h: nat ensures h in PrefixesOf(i, n) <==> h in span {
      assert h in span <==> Within(Thousands(i * L), h, Thousands((i + 1) * L));
      assert h in span <==> i * L <= h * 1000 < (i + 1) * L;
      QuotientBounds(h * 1000, L);
      if i * L <= h * 1000 < (i + 1) * L { Quotient(h * 1000, L, i); }
    }
  }

  lemma SpanSize(x: nat, L: nat)
    ensures L / 1000 <= Thousands(x + L) - Thousands(x) <= L / 1000 + 1
  {
  }

  /** The hash space is shared evenly: the prefix counts of any two pods differ by at most one. */
  lemma PrefixesBalanced(i: nat, j: nat, n: nat)
    requires i < n && j < n && n <= TOTAL
    ensures -1 <= |PrefixesOf(i, n)| - |PrefixesOf(j, n)| <= 1
  {
    var L := TOTAL / n;
    QuotientBounds(TOTAL, n);
    forall k: nat | k < n ensures L / 1000 <= |PrefixesOf(k, n)| <= L / 1000 + 1 {
      PrefixesAreSpan(k, n);
      assert (k + 1) * L == k * L + L;
      SpanSize(k * L, L);
      SizeOfSpan(Thousands(k * L), Thousands((k + 1) * L));
    }
  }

  // ---------------------------------------------------------------- nested intervals over nodes

  function PodsOn(pods: seq<Address>, node: string): seq<Address>
  {
    if pods == [] then []
    else PodsOn(pods[..|pods| - 1], node) + if pods[|pods| - 1].node == node then [pods[|pods| - 1]] else []
  }

  lemma {:induction false} PodsOnAreThere(pods: seq<Address>, node: string)
    ensures forall p :: p in PodsOn(pods, node) <==> p in pods && p.node == node
  {
    if pods != [] {
      PodsOnAreThere(pods[..|pods| - 1], node);
      assert forall p :: p in pods <==> p in pods[..|pods| - 1] || p == pods[|pods| - 1];
    }
  }

  ghost predicate AllServed(nodes: seq<string>, pods: seq<Address>)
  {
    forall i | 0 <= i < |nodes| :: PodsOn(pods, nodes[i]) != []
  }

  /** The pod of a node with m pods and an interval of length span that offset r falls to; None for what
      rounding leaves at the end of the interval. */
  function HomeSlot(r: nat, span: nat, m: nat): (slot: Option<nat>)
    ensures slot.Some? ==> slot.value < m
  {
    var each := if m == 0 then 0 else span / m;
    if r < m * each then
      InScan(r, each, m);
      Some(r / each)
    else None
  }

  lemma InScan(r: nat, each: nat, m: nat)
    requires r < m * each
    ensures each > 0 && r / each < m
  {
  }

  /** The pod of node q at offset r; the rounding rest of a node goes to the next node's first pod. */
  function ChoiceAt(q: nat, r: nat, span: nat, nodes: seq<string>, pods: seq<Address>): Option<Address>
  {
    if q >= |nodes| then None
    else
      var home := PodsOn(pods, nodes[q]);
      match HomeSlot(r, span, |home|)
      case Some(j) => Some(home[j])
      case None =>
        if q + 1 < |nodes| && PodsOn(pods, nodes[q + 1]) != [] then Some(PodsOn(pods, nodes[q + 1])[0]) else None
  }

  /** The length of a node's interval. */
  function SpanOf(nodes: seq<string>): nat { if nodes == [] then 0 else TOTAL / |nodes| }

  function NodeChoice(num: nat, nodes: seq<string>, pods: seq<Address>): Option<Address>
  {
    var span := SpanOf(nodes);
    if span == 0 then None else ChoiceAt(num / span, num % span, span, nodes, pods)
  }

  /** The pods of one node, as the inner loop of distributeByNodeHash scans them. */
  method ScanNode(num: nat, base: nat, span: nat, pods: seq<Address>) returns (pick: Option<Address>)
    requires pods != []
    ensures pick == NodeHit(num, base, span, pods)
  {
    var each := span / |pods|;
    for j := 0 to |pods|
      invariant j > 0 ==> num >= base + j * each
    {
      assert (j + 1) * each == j * each + each;
      if num < base + (j + 1) * each {
        if base <= num {
          MulGrows(j + 1, |pods|, each);
          Quotient(num - base, each, j);
        }
        return Some(pods[j]);
      }
    }
    pick := None;
  }

  /** distributeByNodeHash after its sorting and filtering: the nested scan is the closed form. */
  method ScanNodes(num: nat, nodes: seq<string>, pods: seq<Address>) returns (pick: Option<Address>)
    requires AllServed(nodes, pods)
    ensures pick == NodeChoice(num, nodes, pods)
  {
    if nodes == [] {
      return None;
    }
    var span := TOTAL / |nodes|;
    for i := 0 to |nodes|
      invariant Undecided(num, span, i, nodes, pods)
    {
      var home := PodsOn(pods, nodes[i]);
      var hit := ScanNode(num, i * span, span, home);
      ScanDecides(num, span, i, nodes, pods);
      if hit.Some? {
        return hit;
      }
    }
    ScanEnds(num, span, nodes, pods);
    pick := None;
  }

  /** No pod of the first i nodes has been chosen: either the home node is still to come, or it has just been
      passed in its rounding rest. */
  ghost predicate Undecided(num: nat, span: nat, i: nat, nodes: seq<string>, pods: seq<Address>)
    requires i <= |nodes|
  {
    || i * span <= num
    || (i > 0 && (i - 1) * span <= num < i * span &&
        HomeSlot(num - (i - 1) * span, span, |PodsOn(pods, nodes[i - 1])|) == None)
  }

  lemma ChoiceOf(num: nat, q: nat, span: nat, nodes: seq<string>, pods: seq<Address>)
    requires nodes != [] && span == SpanOf(nodes) && q * span <= num < (q + 1) * span
    ensures NodeChoice(num, nodes, pods) == ChoiceAt(q, num - q * span, span, nodes, pods)
  {
    assert (q + 1) * span == q * span + span;
    Quotient(num, span, q);
    QuotientBounds(num, span);
  }

  ghost function NodeHit(num: nat, base: nat, span: nat, pods: seq<Address>): Option<Address>
    requires pods != []
  {
    if num < base then Some(pods[0])
    else
      match HomeSlot(num - base, span, |pods|)
      case Some(j) => Some(pods[j])
      case None => None
  }

  lemma ScanDecides(num: nat, span: nat, i: nat, nodes: seq<string>, pods: seq<Address>)
    requires i < |nodes| && span == SpanOf(nodes) && AllServed(nodes, pods)
    requires Undecided(num, span, i, nodes, pods)
    ensures var hit := NodeHit(num, i * span, span, PodsOn(pods, nodes[i]));
      if hit.Some? then NodeChoice(num, nodes, pods) == hit else Undecided(num, span, i + 1, nodes, pods)
  {
    hide HomeSlot, PodsOn, NodeChoice;
    assert (i + 1) * span == i * span + span;
    if num < i * span {
      ChoiceOf(num, i - 1, span, nodes, pods);
    } else if num < (i + 1) * span {
      ChoiceOf(num, i, span, nodes, pods);
    } else {
      SlotBelow(num - i * span, span, |PodsOn(pods, nodes[i])|);
    }
  }

  lemma SlotBelow(r: nat, span: nat, m: nat)
    ensures HomeSlot(r, span, m).Some? ==> r < span
  {
  }

  lemma ScanEnds(num: nat, span: nat, nodes: seq<string>, pods: seq<Address>)
    requires nodes != [] && span == SpanOf(nodes) && Undecided(num, span, |nodes|, nodes, pods)
    ensures NodeChoice(num, nodes, pods) == None
  {
    var n := |nodes|;
    if num < n * span {
      assert (n - 1 + 1) * span == n * span;
      ChoiceOf(num, n - 1, span, nodes, pods);
    } else if span > 0 {
      QuotientBounds(num, span);
      if num / span < n { MulGrows(num / span + 1, n, span); }
    }
  }
}
