// Which pod an info hash goes to, in plain arithmetic over the sorted pods and nodes.
module PodOfHash {
  import opened Basics
  import opened Sorting
  import opened Placement
  import opened ServiceLocation

  // ---------------------------------------------------------------- prefixes

  lemma InfoHashIs(s: string)
    ensures IsInfoHash(s) <==> 5 <= |s| <= 40 && forall c | c in s :: c in "0123456789abcdef"
  {
    forall c | c in s ensures IsHexDigit(c) <==> c in "0123456789abcdef" {
      var digits := "0123456789abcdef";
      if '0' <= c <= '9' { assert digits[c as int - '0' as int] == c; }
      if 'a' <= c <= 'f' { assert digits[10 + c as int - 'a' as int] == c; }
    }
  }

  /** The prefix is the number that the first five digits write in base 16. */
  lemma PrefixIs(s: string, d: seq<nat>)
    requires IsInfoHash(s) && |d| == 5
    requires forall i | 0 <= i < 5 :: d[i] < 16 && s[i] == "0123456789abcdef"[d[i]]
    ensures Prefix(s) == 0x10000 * d[0] + 0x1000 * d[1] + 0x100 * d[2] + 0x10 * d[3] + d[4]
  {
    var t := s[..5];
    forall i | 0 <= i < 5 ensures t[i] == s[i] && IsHexDigit(t[i]) && DigitValue(t[i]) == d[i] {
      assert s[i] in s;
    }
    assert t[..4][..3] == t[..3] && t[..3][..2] == t[..2] && t[..2][..1] == t[..1] && t[..1][..0] == "";
    hide DigitValue;
    assert HexValue(t[..1]) == d[0];
    assert HexValue(t[..2]) == 16 * d[0] + d[1];
    assert HexValue(t[..3]) == 256 * d[0] + 16 * d[1] + d[2];
    assert HexValue(t[..4]) == 16 * HexValue(t[..3]) + d[3];
  }

  /** Where a request is placed by its prefix although it is no info hash, the prefix may have upper-case digits and a
      sign before the last four. */
  lemma AnyPrefixIs(s: string)
    requires |s| >= 5
    ensures ParsePrefix(s).Some? <==> forall i | (if s[0] in "+-" then 1 else 0) <= i < 5 ::
      s[i] in "0123456789abcdef" || s[i] in "0123456789ABCDEF"
    ensures var prefix := ParsePrefix(s);
      && (prefix.Some? && s[0] == '-' ==> prefix.value + HexValue(s[1..5]) == 0)
      && (prefix.Some? && s[0] == '+' ==> prefix.value == HexValue(s[1..5]))
      && (prefix.Some? && s[0] !in "+-" ==> prefix.value == HexValue(s[..5]))
  {
    forall c ensures IsAnyHexDigit(c) <==> c in "0123456789abcdef" || c in "0123456789ABCDEF" { AnyDigitIs(c); }
    var digits := if s[0] in "+-" then s[1..5] else s[..5];
    var from := if s[0] in "+-" then 1 else 0;
    hide IsAnyHexDigit;
    assert forall i | from <= i < 5 :: s[i] == digits[i - from] && digits[i - from] in digits;
  }

  lemma AnyDigitIs(c: char)
    ensures IsAnyHexDigit(c) <==> c in "0123456789abcdef" || c in "0123456789ABCDEF"
    ensures forall d | 0 <= d < 16 && c in ["0123456789abcdef"[d], "0123456789ABCDEF"[d]] ::
      IsAnyHexDigit(c) && DigitValue(c) == d
  {
    var lower, upper := "0123456789abcdef", "0123456789ABCDEF";
    if '0' <= c <= '9' { assert lower[c as int - '0' as int] == c; }
    if 'a' <= c <= 'f' { assert lower[10 + c as int - 'a' as int] == c; }
    if 'A' <= c <= 'F' { assert upper[10 + c as int - 'A' as int] == c; }
  }

  // ---------------------------------------------------------------- hashing to pods

  /** The pods in the order of their IPs. */
  ghost predicate InIpOrder(s: seq<Address>, pods: seq<Address>)
  {
    multiset(s) == multiset(pods) && IsSorted(s, IpOf)
  }

  lemma OnlyIpOrder(s: seq<Address>, pods: seq<Address>)
    requires Distinct(pods, IpOf) && InIpOrder(s, pods)
    ensures Sorted(pods, IpOf) == s && |s| == |pods|
  {
    SortedSorts(pods, IpOf);
    DistinctPermuted(pods, s, IpOf);
    SortedUnique(s, Sorted(pods, IpOf), IpOf);
    assert |multiset(s)| == |multiset(pods)|;
  }

  /** The hash space is cut into equal intervals, one for each pod in the order of their IPs; nobody has the rest. */
  lemma HashPlaces(infoHash: string, pods: seq<Address>, s: seq<Address>, i: nat)
    requires IsInfoHash(infoHash) && pods != [] && Distinct(pods, IpOf) && InIpOrder(s, pods)
    ensures var num, interval := Prefix(infoHash) * 1000, 1_048_575_000 / |pods|;
      && (i < |s| && i * interval <= num < (i + 1) * interval ==> ByHash(infoHash, pods) == Picked(Some(s[i])))
      && (num >= |s| * interval ==> ByHash(infoHash, pods) == Picked(None))
  {
    OnlyIpOrder(s, pods);
    InfoHashParses(infoHash);
    IndexIs(Prefix(infoHash) * 1000, |s|, i);
    hide Sorted, Prefix, ParsePrefix, HashIndex;
  }

  lemma IndexIs(num: nat, n: nat, i: nat)
    requires n > 0
    ensures i < n && i * (1_048_575_000 / n) <= num < (i + 1) * (1_048_575_000 / n) ==> HashIndex(num, n) == Some(i)
    ensures num >= n * (1_048_575_000 / n) ==> HashIndex(num, n) == None
  {
    var interval := 1_048_575_000 / n;
    if i * interval <= num < (i + 1) * interval { Quotient(num, interval, i); }
    if interval > 0 && num >= n * interval { AtLeast(num, interval, n); }
  }

  lemma AtLeast(num: nat, d: nat, q: nat)
    requires d > 0 && num >= q * d
    ensures num / d >= q
  {
    QuotientBounds(num, d);
    if num / d < q { MulGrows(num / d + 1, q, d); }
  }

  // ---------------------------------------------------------------- hashing to nodes

  /** The pods of a node in the order of their IPs. */
  ghost predicate AtHome(home: seq<Address>, pods: seq<Address>, node: string)
  {
    && IsSorted(home, IpOf) && Distinct(home, IpOf)
    && forall a :: a in home <==> a in pods && a.node == node
  }

  lemma {:induction false} PodsOnInOrder(pods: seq<Address>, node: string)
    requires IsSorted(pods, IpOf) && Distinct(pods, IpOf)
    ensures IsSorted(PodsOn(pods, node), IpOf) && Distinct(PodsOn(pods, node), IpOf)
  {
    if pods != [] {
      var k := |pods| - 1;
      PodsOnInOrder(pods[..k], node);
      PodsOnAreThere(pods[..k], node);
      var before := PodsOn(pods[..k], node);
      forall a | a in before ensures StrLe(a.ip, pods[k].ip) && a.ip != pods[k].ip {
        var i :| 0 <= i < k && pods[i] == a;
        assert StrLe(IpOf(pods[i]), IpOf(pods[k])) && IpOf(pods[i]) != IpOf(pods[k]);
      }
      StrLeTotal(pods[k].ip, pods[k].ip);
      hide StrLe;
      OneMoreInOrder(before, pods[k]);
    }
  }

  lemma OneMoreInOrder(s: seq<Address>, a: Address)
    requires IsSorted(s, IpOf) && Distinct(s, IpOf) && StrLe(a.ip, a.ip)
    requires forall x | x in s :: StrLe(x.ip, a.ip) && x.ip != a.ip
    ensures IsSorted(s + [a], IpOf) && Distinct(s + [a], IpOf)
  {
    hide StrLe;
  }

  lemma HomeIs(home: seq<Address>, pods: seq<Address>, node: string)
    requires Distinct(pods, IpOf) && AtHome(home, pods, node)
    ensures PodsOn(Sorted(pods, IpOf), node) == home
  {
    var s := Sorted(pods, IpOf);
    SortedSorts(pods, IpOf);
    DistinctPermuted(pods, s, IpOf);
    hide IsSorted, Distinct;
    PodsOnInOrder(s, node);
    PodsOnAreThere(s, node);
    OneSortedList(home, PodsOn(s, node), IpOf);
  }

  /** The nodes that a role may use, by name. */
  ghost predicate ByName(nodes: seq<string>, kept: seq<string>)
  {
    IsSorted(nodes, Itself) && Distinct(nodes, Itself) && forall n :: n in nodes <==> n in kept
  }

  lemma {:induction false} AllowedInOrder(nodes: seq<string>, stats: seq<NodeStat>, role: string)
    requires IsSorted(nodes, Itself) && Distinct(nodes, Itself) && Distinct(stats, NameOf)
    ensures IsSorted(AllowedNodes(nodes, stats, role), Itself)
  {
    if nodes != [] {
      var k := |nodes| - 1;
      AllowedInOrder(nodes[..k], stats, role);
      CopiesAllowed(nodes[k], stats, role);
      var before, copies := AllowedNodes(nodes[..k], stats, role), Copies(nodes[k], stats, role);
      forall n | n in before ensures StrLe(n, nodes[k]) {
        OnlyAllowedNodes(nodes[..k], stats, role);
        hide AllowedNodes, Permitted, StrLe;
        var i :| 0 <= i < k && nodes[i] == n;
        assert StrLe(Itself(nodes[i]), Itself(nodes[k]));
      }
      hide Copies, StrLe, Distinct, Permitted;
      StrLeTotal(nodes[k], nodes[k]);
      OneMoreNode(before, copies, nodes[k]);
    }
  }

  lemma OneMoreNode(s: seq<string>, copies: seq<string>, n: string)
    requires IsSorted(s, Itself) && |copies| <= 1 && StrLe(n, n)
    requires (forall x | x in copies :: x == n) && forall x | x in s :: StrLe(x, n)
    ensures IsSorted(s + copies, Itself)
  {
    hide StrLe;
    if copies != [] { assert copies[0] in copies && copies == [n]; }
    assert forall i | 0 <= i < |s| :: s[i] in s;
  }

  lemma NodesAre(nodes: seq<string>, pods: seq<Address>, role: string, stats: Option<seq<NodeStat>>)
    requires RoleNodes(pods, role, stats).Some? && (stats.Some? ==> Distinct(stats.value, NameOf))
    requires ByName(nodes, RoleNodes(pods, role, stats).value)
    ensures RoleNodes(pods, role, stats) == Some(nodes)
  {
    SortedNodes(pods);
    SortedSorts(NamesOf(pods), Itself);
    if role != "" {
      AllowedInOrder(NodesOf(pods), stats.value, role);
      AllowedOnce(NodesOf(pods), stats.value, role);
    }
    hide IsSorted, Distinct, AllowedNodes;
    OneSortedList(nodes, RoleNodes(pods, role, stats).value, Itself);
  }

  /** The hash space is cut into equal intervals for the nodes in the order of their names, and each of these for the
      node's pods in the order of their IPs. */
  lemma NodeHashPlaces(infoHash: string, pods: seq<Address>, role: string, stats: Option<seq<NodeStat>>,
      nodes: seq<string>, q: nat, home: seq<Address>, j: nat)
    requires IsInfoHash(infoHash) && Distinct(pods, IpOf) && (stats.Some? ==> Distinct(stats.value, NameOf))
    requires RoleNodes(pods, role, stats).Some? && ByName(nodes, RoleNodes(pods, role, stats).value)
    requires q < |nodes| && AtHome(home, pods, nodes[q]) && j < |home|
    requires var num, span := Prefix(infoHash) * 1000, 1_048_575_000 / |nodes|; var each := span / |home|;
      q * span + j * each <= num < q * span + (j + 1) * each
    ensures ByNodeHash(infoHash, pods, role, stats) == Picked(Some(home[j]))
  {
    NodesAre(nodes, pods, role, stats);
    HomeIs(home, pods, nodes[q]);
    var num, span := Prefix(infoHash) * 1000, 1_048_575_000 / |nodes|;
    var each := span / |home|;
    SlotIs(num, span, q, |home|, j);
    hide Sorted, Prefix, IsSorted, Distinct, RoleNodes, PodsOn, HomeSlot, ByName, AtHome;
    ChoiceOf(num, q, span, nodes, Sorted(pods, IpOf));
  }

  lemma SlotIs(num: nat, span: nat, q: nat, m: nat, j: nat)
    requires j < m && q * span + j * (span / m) <= num < q * span + (j + 1) * (span / m)
    ensures q * span <= num < (q + 1) * span && HomeSlot(num - q * span, span, m) == Some(j)
  {
    var each := span / m;
    QuotientBounds(span, m);
    MulGrows(j + 1, m, each);
    assert each * m == m * each && (q + 1) * span == q * span + span;
    Quotient(num - q * span, each, j);
  }

  /** What rounding leaves at the end of a node's interval goes to the next node's first pod, and to nobody after the
      last node. */
  lemma NodeHashRest(infoHash: string, pods: seq<Address>, role: string, stats: Option<seq<NodeStat>>,
      nodes: seq<string>, q: nat, home: seq<Address>, next: seq<Address>)
    requires IsInfoHash(infoHash) && Distinct(pods, IpOf) && (stats.Some? ==> Distinct(stats.value, NameOf))
    requires RoleNodes(pods, role, stats).Some? && ByName(nodes, RoleNodes(pods, role, stats).value)
    requires q < |nodes| && AtHome(home, pods, nodes[q]) && home != []
    requires q + 1 < |nodes| ==> AtHome(next, pods, nodes[q + 1]) && next != []
    requires var num, span := Prefix(infoHash) * 1000, 1_048_575_000 / |nodes|;
      q * span + |home| * (span / |home|) <= num < (q + 1) * span
    ensures ByNodeHash(infoHash, pods, role, stats) == Picked(if q + 1 < |nodes| then Some(next[0]) else None)
  {
    NodesAre(nodes, pods, role, stats);
    HomeIs(home, pods, nodes[q]);
    if q + 1 < |nodes| { HomeIs(next, pods, nodes[q + 1]); }
    RestChoice(Prefix(infoHash) * 1000, q, nodes, Sorted(pods, IpOf));
    hide Sorted, Prefix, IsSorted, Distinct, RoleNodes, PodsOn, ByName, AtHome, NodeChoice;
  }

  predicate InRest(num: nat, q: nat, span: nat, m: nat)
  {
    m > 0 && q * span + m * (span / m) <= num < (q + 1) * span
  }

  lemma RestChoice(num: nat, q: nat, nodes: seq<string>, pods: seq<Address>)
    requires q < |nodes| && InRest(num, q, 1_048_575_000 / |nodes|, |PodsOn(pods, nodes[q])|)
    ensures NodeChoice(num, nodes, pods) ==
      if q + 1 < |nodes| && PodsOn(pods, nodes[q + 1]) != [] then Some(PodsOn(pods, nodes[q + 1])[0]) else None
  {
    var span := SpanOf(nodes);
    RestIs(num, q, span, |PodsOn(pods, nodes[q])|);
    hide InRest, PodsOn, HomeSlot, SpanOf;
    ChoiceOf(num, q, span, nodes, pods);
    hide NodeChoice;
  }

  lemma RestIs(num: nat, q: nat, span: nat, m: nat)
    requires InRest(num, q, span, m)
    ensures q * span <= num < (q + 1) * span && HomeSlot(num - q * span, span, m) == None
  {
    MulGrows(0, m, span / m);
  }

  // ---------------------------------------------------------------- whom it is done for

  /** Only five to forty hex digits are placed by their prefix; other requests go to a random pod. */
  lemma RandomUnlessHash(rq: Request, look: Lookup, pods: seq<Address>)
    requires pods != []
    requires !(5 <= |rq.infoHash| <= 40 && forall c | c in rq.infoHash :: c in "0123456789abcdef")
    ensures Distribute(rq, look, pods) == Picked(Some(pods[look.draw % |pods|]))
  {
    InfoHashIs(rq.infoHash);
  }

  /** What cannot be resolved: an endpoint that cannot be had or roles that cannot be looked up are errors, an endpoint
      without a subset crashes, and a service whose pods are all ignored, or without a distribution, is unavailable. */
  lemma CannotResolve(rq: Request, look: Lookup, nn: string, ignore: set<string>)
    ensures look.subsets == None ==> Resolve(rq, look, nn, ignore) == Failed
    ensures look.subsets == Some([]) ==> Resolve(rq, look, nn, ignore) == Crashed
    ensures HasSubset(look) && (forall a | a in Offered(look) :: a.ip in ignore) ==>
      Resolve(rq, look, nn, ignore) == Unavailable
    ensures HasSubset(look) && IsInfoHash(rq.infoHash) && (exists a :: a in Offered(look) && a.ip !in ignore) ==>
      var how, place := rq.cfg.distribution, Resolve(rq, look, nn, ignore);
      && (how.NoDistribution? ==> place == Unavailable)
      && (how.NodeHash? && rq.role != "" && look.stats.None? ==> place == Failed)
  {
    if HasSubset(look) {
      NotIgnoredAre(Offered(look), ignore);
      var pods := NotIgnored(Offered(look), ignore);
      hide NotIgnored, PodsOn, Listed, ByHash, ByNodeHash;
      assert pods != [] ==> pods[0] in pods;
      if pods != [] && IsInfoHash(rq.infoHash) {
        NobodyToLocate(rq, look, nn, pods);
        hide Locate;
      }
    }
  }

  lemma NobodyToLocate(rq: Request, look: Lookup, nn: string, pods: seq<Address>)
    requires pods != [] && IsInfoHash(rq.infoHash)
    ensures rq.cfg.distribution.NoDistribution? ==> Locate(rq, look, nn, pods) == Unavailable
    ensures rq.cfg.distribution.NodeHash? && rq.role != "" && look.stats.None? ==> Locate(rq, look, nn, pods) == Failed
  {
    hide PodsOn, Listed, ByHash, NodeHashChoice;
  }

  /** Of the endpoint's subsets only the first is looked at. */
  lemma FirstSubsetOnly(rq: Request, look: Lookup, first: seq<Address>, more: seq<seq<Address>>, nn: string,
      ignore: set<string>)
    ensures var one, many := look.(subsets := Some([first])), look.(subsets := Some([first] + more));
      && Resolve(rq, many, nn, ignore) == Resolve(rq, one, nn, ignore)
      && (Resolve(rq, many, nn, ignore).Pod? ==> Resolve(rq, many, nn, ignore).address in first)
  {
    var one, many := look.(subsets := Some([first])), look.(subsets := Some([first] + more));
    ResolvedIsNotIgnored(rq, one, nn, ignore);
    hide ByHash, ByNodeHash, NotIgnored, PodsOn, Listed;
  }

  /** A machine that prefers its own pods places even other requests by their prefix: one shorter than five characters
      crashes it, and one that is no number is an error. */
  lemma LocalPlacementFails(rq: Request, look: Lookup, nn: string, ignore: set<string>)
    requires HasSubset(look) && rq.cfg.preferLocalNode && nn != "" && !IsInfoHash(rq.infoHash)
    requires var pods := NotIgnored(Offered(look), ignore);
      InUse(pods, nn) && pods[look.draw % |pods|].node != nn
    ensures |rq.infoHash| < 5 ==> Resolve(rq, look, nn, ignore) == Crashed
    ensures |rq.infoHash| >= 5 && ParsePrefix(rq.infoHash).None? ==> Resolve(rq, look, nn, ignore) == Failed
  {
    var pods := NotIgnored(Offered(look), ignore);
    PodsOnAreThere(Listed(rq, pods), nn);
    var a :| a in pods && a.node == nn;
    assert a in PodsOn(Listed(rq, pods), nn);
    hide NotIgnored, PodsOn, Listed, ParsePrefix;
  }
}
