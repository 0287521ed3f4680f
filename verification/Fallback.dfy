// When a fallback after a failed pod stays on the pod's node.
module Fallback {
  import opened Basics
  import opened Sorting
  import opened Placement
  import opened ServiceLocation

  function On(node: string): Address -> bool { (a: Address) => a.node == node }

  // ---------------------------------------------------------------- what ignoring one pod changes

  lemma {:induction false} PodsOnCounted(pods: seq<Address>, node: string)
    ensures |PodsOn(pods, node)| == Count(pods, On(node))
  {
    if pods != [] { PodsOnCounted(pods[..|pods| - 1], node); }
  }

  lemma {:induction false} NotIgnoredDistinct(pods: seq<Address>, ignore: set<string>)
    requires Distinct(pods, IpOf)
    ensures Distinct(NotIgnored(pods, ignore), IpOf)
  {
    if pods != [] {
      var k := |pods| - 1;
      NotIgnoredDistinct(pods[..k], ignore);
      NotIgnoredAre(pods[..k], ignore);
      var kept := NotIgnored(pods[..k], ignore);
      forall i | 0 <= i < |kept| ensures kept[i].ip != pods[k].ip {
        assert kept[i] in kept;
      }
    }
  }

  lemma IgnoreAppend(pods: seq<Address>, ignore: set<string>, a: Address)
    ensures NotIgnored(pods + [a], ignore) == NotIgnored(pods, ignore) + if a.ip in ignore then [] else [a]
  {
  }

  lemma {:induction false} IgnoreOneMore(pods: seq<Address>, ignore: set<string>, ip: string)
    ensures NotIgnored(pods, ignore + {ip}) == NotIgnored(NotIgnored(pods, ignore), {ip})
  {
    if pods != [] {
      var k := |pods| - 1;
      IgnoreOneMore(pods[..k], ignore, ip);
      var kept := NotIgnored(pods[..k], ignore);
      assert kept + [] == kept && NotIgnored(kept, {ip}) + [] == NotIgnored(kept, {ip});
      IgnoreAppend(kept, {ip}, pods[k]);
    }
  }

  lemma {:induction false} NoneToIgnore(pods: seq<Address>, ip: string)
    requires forall a | a in pods :: a.ip != ip
    ensures NotIgnored(pods, {ip}) == pods
  {
    if pods != [] {
      assert pods[|pods| - 1] in pods;
      NoneToIgnore(pods[..|pods| - 1], ip);
    }
  }

  lemma {:induction false} OneLess(pods: seq<Address>, i: nat, node: string)
    requires Distinct(pods, IpOf) && i < |pods|
    ensures Count(NotIgnored(pods, {pods[i].ip}), On(node)) ==
      Count(pods, On(node)) - if pods[i].node == node then 1 else 0
  {
    var k, one := |pods| - 1, {pods[i].ip};
    if i == k {
      NoneToIgnore(pods[..k], pods[k].ip);
      assert NotIgnored(pods, one) == pods[..k];
    } else {
      OneLess(pods[..k], i, node);
      assert pods[i].ip != pods[k].ip;
      hide Distinct;
      assert NotIgnored(pods, one) == NotIgnored(pods[..k], one) + [pods[k]];
      hide NotIgnored;
      CountAppend(NotIgnored(pods[..k], one), On(node), pods[k]);
    }
  }

  /** The pods of a node in the order the distribution sees them. */
  function Home(pods: seq<Address>, node: string): seq<Address> { PodsOn(Sorted(pods, IpOf), node) }

  /** Ignoring pod f takes one pod from its node and none from the others. */
  lemma HomeWithout(pods: seq<Address>, f: Address, node: string)
    requires Distinct(pods, IpOf) && f in pods
    ensures |Home(NotIgnored(pods, {f.ip}), node)| == |Home(pods, node)| - if f.node == node then 1 else 0
  {
    var rest := NotIgnored(pods, {f.ip});
    var i :| 0 <= i < |pods| && pods[i] == f;
    OneLess(pods, i, node);
    SortedSorts(pods, IpOf);
    SortedSorts(rest, IpOf);
    CountPermuted(pods, Sorted(pods, IpOf), On(node));
    CountPermuted(rest, Sorted(rest, IpOf), On(node));
    PodsOnCounted(Sorted(pods, IpOf), node);
    PodsOnCounted(Sorted(rest, IpOf), node);
  }

  lemma InUseWhenHome(pods: seq<Address>, node: string)
    ensures InUse(pods, node) <==> Home(pods, node) != []
  {
    SortedSorts(pods, IpOf);
    PodsOnAreThere(Sorted(pods, IpOf), node);
    if InUse(pods, node) {
      var a :| a in pods && a.node == node;
      assert a in Home(pods, node);
    }
    if Home(pods, node) != [] {
      assert Home(pods, node)[0] in Home(pods, node);
    }
  }

  /** While f's node keeps a pod the node list stays as it is. */
  lemma NodesWithout(pods: seq<Address>, f: Address)
    requires Distinct(pods, IpOf) && f in pods && |Home(pods, f.node)| > 1
    ensures NodesOf(NotIgnored(pods, {f.ip})) == NodesOf(pods)
  {
    var rest := NotIgnored(pods, {f.ip});
    forall n ensures InUse(pods, n) <==> InUse(rest, n) {
      HomeWithout(pods, f, n);
      InUseWhenHome(pods, n);
      InUseWhenHome(rest, n);
    }
    SameNodes(pods, rest);
  }

  // ---------------------------------------------------------------- the node of the choice

  /** The node that offset r of node q falls to, when node n has sizes(n) pods. */
  function NodeAt(q: nat, r: nat, span: nat, nodes: seq<string>, sizes: string -> nat): Option<string>
  {
    if q >= |nodes| then None
    else if HomeSlot(r, span, sizes(nodes[q])).Some? then Some(nodes[q])
    else if q + 1 < |nodes| then Some(nodes[q + 1])
    else None
  }

  function HomeSizes(pods: seq<Address>): string -> nat { (n: string) => |Home(pods, n)| }

  function NodeOf(pick: Option<Address>): Option<string>
  {
    match pick case Some(a) => Some(a.node) case None => None
  }

  /** The node of the chosen pod depends on the nodes and on how many pods each has, on nothing else. */
  lemma ChoiceNode(q: nat, r: nat, span: nat, nodes: seq<string>, pods: seq<Address>)
    requires AllServed(nodes, Sorted(pods, IpOf))
    ensures NodeOf(ChoiceAt(q, r, span, nodes, Sorted(pods, IpOf))) == NodeAt(q, r, span, nodes, HomeSizes(pods))
  {
    hide HomeSlot, PodsOn, Sorted;
    if q < |nodes| {
      var slot := HomeSlot(r, span, |Home(pods, nodes[q])|);
      if slot.Some? {
        HomeIsOn(pods, nodes[q], slot.value);
      } else if q + 1 < |nodes| {
        HomeIsOn(pods, nodes[q + 1], 0);
      }
    }
  }

  function HashedNode(num: nat, nodes: seq<string>, sizes: string -> nat): Option<string>
  {
    var span := SpanOf(nodes);
    if span == 0 then None else NodeAt(num / span, num % span, span, nodes, sizes)
  }

  lemma ByNodeHashNode(infoHash: string, pods: seq<Address>, role: string, stats: Option<seq<NodeStat>>)
    requires IsInfoHash(infoHash) && RoleNodes(pods, role, stats).Some?
    ensures ByNodeHash(infoHash, pods, role, stats).Picked?
    ensures NodeOf(ByNodeHash(infoHash, pods, role, stats).pick) ==
      HashedNode(Num(infoHash), RoleNodes(pods, role, stats).value, HomeSizes(pods))
  {
    var nodes := RoleNodes(pods, role, stats).value;
    KeptAreServed(pods, role, stats);
    HashedNodeIs(Num(infoHash), nodes, pods);
    hide RoleNodes, HashedNode, NodeChoice, Num, NodeOf;
  }

  lemma HashedNodeIs(num: nat, nodes: seq<string>, pods: seq<Address>)
    requires AllServed(nodes, Sorted(pods, IpOf))
    ensures NodeOf(NodeHashChoice(num, pods, nodes)) == HashedNode(num, nodes, HomeSizes(pods))
  {
    var span := SpanOf(nodes);
    hide SpanOf, NodeAt, ChoiceAt, AllServed;
    if span > 0 { ChoiceNode(num / span, num % span, span, nodes, pods); }
  }

  lemma HomeIsOn(pods: seq<Address>, node: string, i: nat)
    requires i < |Home(pods, node)|
    ensures Home(pods, node)[i].node == node
  {
    PodsOnAreThere(Sorted(pods, IpOf), node);
    assert Home(pods, node)[i] in Home(pods, node);
  }

  // ---------------------------------------------------------------- the fallback

  /** A node has one interval per pod; the offset r still falls to the node when one pod is taken away. */
  predicate FitsOneLess(r: nat, span: nat, m: nat)
    requires m > 1
  {
    r < (m - 1) * (span / (m - 1))
  }

  /** What a caller can check before the fallback: the node of f has another pod, and if the info hash belongs to that
      node by its interval, rather than by the rounding rest of the node before, its offset fits the remaining pods. */
  predicate NodeKeeps(num: nat, nodes: seq<string>, pods: seq<Address>, f: Address)
    requires SpanOf(nodes) > 0 && num / SpanOf(nodes) < |nodes|
  {
    var span := SpanOf(nodes);
    var m := |Home(pods, f.node)|;
    m > 1 && (nodes[num / span] == f.node ==> FitsOneLess(num % span, span, m))
  }

  lemma NodesOnce(pods: seq<Address>, role: string, stats: Option<seq<NodeStat>>)
    requires RoleNodes(pods, role, stats).Some? && (stats.Some? ==> Distinct(stats.value, NameOf))
    ensures Distinct(RoleNodes(pods, role, stats).value, Itself)
  {
    SortedNodes(pods);
    if role != "" { AllowedOnce(NodesOf(pods), stats.value, role); }
  }

  lemma NodeWithoutAt(q: nat, r: nat, span: nat, nodes: seq<string>, pods: seq<Address>, f: Address)
    requires Distinct(pods, IpOf) && f in pods && Distinct(nodes, Itself)
    requires q < |nodes| && |Home(pods, f.node)| > 1 && NodeAt(q, r, span, nodes, HomeSizes(pods)) == Some(f.node)
    ensures NodeAt(q, r, span, nodes, HomeSizes(NotIgnored(pods, {f.ip}))) == Some(f.node) <==>
      (nodes[q] == f.node ==> FitsOneLess(r, span, |Home(pods, f.node)|))
  {
    HomeWithout(pods, f, nodes[q]);
    hide Home, NotIgnored;
    assert q + 1 < |nodes| ==> Itself(nodes[q]) != Itself(nodes[q + 1]);
  }

  lemma NodeWithout(num: nat, nodes: seq<string>, pods: seq<Address>, f: Address)
    requires Distinct(pods, IpOf) && f in pods && Distinct(nodes, Itself)
    requires |Home(pods, f.node)| > 1 && HashedNode(num, nodes, HomeSizes(pods)) == Some(f.node)
    ensures SpanOf(nodes) > 0 && num / SpanOf(nodes) < |nodes|
    ensures HashedNode(num, nodes, HomeSizes(NotIgnored(pods, {f.ip}))) == Some(f.node)
      <==> NodeKeeps(num, nodes, pods, f)
  {
    var span := SpanOf(nodes);
    hide SpanOf, Home, NotIgnored, HomeSlot, FitsOneLess;
    NodeWithoutAt(num / span, num % span, span, nodes, pods, f);
    hide NodeAt;
  }

  lemma Alone(pods: seq<Address>, f: Address, role: string, stats: Option<seq<NodeStat>>, infoHash: string, a: Address)
    requires Distinct(pods, IpOf) && f in pods && |Home(pods, f.node)| <= 1 && IsInfoHash(infoHash)
    requires ByNodeHash(infoHash, NotIgnored(pods, {f.ip}), role, stats) == Picked(Some(a))
    ensures a.node != f.node
  {
    var rest := NotIgnored(pods, {f.ip});
    ChosenNodeAllowed(infoHash, rest, role, stats, a);
    HomeWithout(pods, f, f.node);
    InUseWhenHome(rest, f.node);
  }

  /** Node hashing after one pod is ignored: the node stays the same exactly when the node keeps the info hash. */
  lemma SameNodeIff(infoHash: string, pods: seq<Address>, role: string, stats: Option<seq<NodeStat>>, f: Address)
    requires IsInfoHash(infoHash) && Distinct(pods, IpOf) && (stats.Some? ==> Distinct(stats.value, NameOf))
    requires ByNodeHash(infoHash, pods, role, stats) == Picked(Some(f))
    ensures var nodes := RoleNodes(pods, role, stats).value;
      && SpanOf(nodes) > 0 && Num(infoHash) / SpanOf(nodes) < |nodes|
      && var again := ByNodeHash(infoHash, NotIgnored(pods, {f.ip}), role, stats);
         (again.Picked? && NodeOf(again.pick) == Some(f.node) <==> NodeKeeps(Num(infoHash), nodes, pods, f))
  {
    var nodes, rest := RoleNodes(pods, role, stats).value, NotIgnored(pods, {f.ip});
    ChosenNodeAllowed(infoHash, pods, role, stats, f);
    ByNodeHashNode(infoHash, pods, role, stats);
    NodesOnce(pods, role, stats);
    if |Home(pods, f.node)| > 1 {
      NodesWithout(pods, f);
      assert RoleNodes(rest, role, stats) == Some(nodes);
      hide *;
      ByNodeHashNode(infoHash, rest, role, stats);
      NodeWithout(Num(infoHash), nodes, pods, f);
    } else {
      HashedInRange(Num(infoHash), nodes, HomeSizes(pods));
      var again := ByNodeHash(infoHash, rest, role, stats);
      if again.Picked? && again.pick.Some? {
        Alone(pods, f, role, stats, infoHash, again.pick.value);
      }
      hide ByNodeHash, RoleNodes, HashedNode, Home, SpanOf;
    }
  }

  lemma HashedInRange(num: nat, nodes: seq<string>, sizes: string -> nat)
    requires HashedNode(num, nodes, sizes).Some?
    ensures SpanOf(nodes) > 0 && num / SpanOf(nodes) < |nodes|
  {
  }

  /** A fallback with node hashing, on a machine without a local pod to prefer, goes to the failed pod's node exactly
      when that node keeps the info hash. */
  lemma FallbackStaysOnNodeIff(rq: Request, look: Lookup, nn: string, ignore: set<string>, f: Address)
    requires rq.cfg.distribution.NodeHash? && IsInfoHash(rq.infoHash) && HasSubset(look)
    requires Distinct(Offered(look), IpOf) && (look.stats.Some? ==> Distinct(look.stats.value, NameOf))
    requires Resolve(rq, look, nn, ignore) == Pod(f)
    requires nn == "" || !rq.cfg.preferLocalNode || !InUse(Offered(look), nn)
    ensures var pods := NotIgnored(Offered(look), ignore);
      && RoleNodes(pods, rq.role, look.stats).Some?
      && var nodes := RoleNodes(pods, rq.role, look.stats).value;
      && SpanOf(nodes) > 0 && Num(rq.infoHash) / SpanOf(nodes) < |nodes|
      && var fallback := Resolve(rq, look, nn, ignore + {f.ip});
         (fallback.Pod? && fallback.address.node == f.node <==> NodeKeeps(Num(rq.infoHash), nodes, pods, f))
  {
    var all := Offered(look);
    var pods := NotIgnored(all, ignore);
    NotIgnoredDistinct(all, ignore);
    IgnoreOneMore(all, ignore, f.ip);
    NoLocalBranch(rq, look, nn, ignore);
    NoLocalBranch(rq, look, nn, ignore + {f.ip});
    hide *;
    SameNodeIff(rq.infoHash, pods, rq.role, look.stats, f);
    SameOutcome(ByNodeHash(rq.infoHash, NotIgnored(pods, {f.ip}), rq.role, look.stats), f.node);
  }

  lemma SameOutcome(outcome: Outcome, node: string)
    ensures PlaceOf(outcome).Pod? && PlaceOf(outcome).address.node == node <==>
      outcome.Picked? && NodeOf(outcome.pick) == Some(node)
    ensures forall a :: PlaceOf(outcome) == Pod(a) <==> outcome == Picked(Some(a))
  {
  }

  lemma NoLocalBranch(rq: Request, look: Lookup, nn: string, ignore: set<string>)
    requires rq.cfg.distribution.NodeHash? && IsInfoHash(rq.infoHash) && HasSubset(look)
    requires nn == "" || !rq.cfg.preferLocalNode || !InUse(Offered(look), nn)
    ensures var pods := NotIgnored(Offered(look), ignore);
      var outcome := ByNodeHash(rq.infoHash, pods, rq.role, look.stats);
      && (Resolve(rq, look, nn, ignore).Pod? || PlaceOf(outcome).Pod? ==>
            Resolve(rq, look, nn, ignore) == PlaceOf(outcome))
      && (forall a :: PlaceOf(outcome) == Pod(a) <==> outcome == Picked(Some(a)))
  {
    var pods := NotIgnored(Offered(look), ignore);
    var outcome := ByNodeHash(rq.infoHash, pods, rq.role, look.stats);
    if pods == [] && outcome.Picked? && outcome.pick.Some? {
      ChosenNodeAllowed(rq.infoHash, pods, rq.role, look.stats, outcome.pick.value);
    }
    var locals := PodsOn(Listed(rq, pods), nn);
    if locals != [] {
      assert locals[0] in locals;
      PodsOnAreThere(Listed(rq, pods), nn);
      LocalIsThere(rq, nn, pods, locals[0]);
      NotIgnoredAre(Offered(look), ignore);
    }
    hide ByNodeHash, PodsOn, Listed, NotIgnored;
  }

  /** Enough for the node to keep the info hash: it has another pod and the offset is not in the last m of the
      interval. */
  lemma AwayFromTheEnd(num: nat, nodes: seq<string>, pods: seq<Address>, f: Address)
    requires SpanOf(nodes) > 0 && num / SpanOf(nodes) < |nodes|
    requires |Home(pods, f.node)| > 1 && num % SpanOf(nodes) <= SpanOf(nodes) - |Home(pods, f.node)|
    ensures NodeKeeps(num, nodes, pods, f)
  {
  }

  /** The info hash falls to one of n pods by its prefix; a negative one to the first. */
  predicate Falls(infoHash: string, n: nat)
  {
    n > 0 && |infoHash| >= 5 && ParsePrefix(infoHash).Some?
    && var prefix := ParsePrefix(infoHash).value; prefix < 0 || HashIndex(prefix * 1000, n).Some?
  }

  lemma PlacedIffFalls(infoHash: string, pods: seq<Address>)
    requires pods != []
    ensures PlaceOf(ByHash(infoHash, pods)).Pod? <==> Falls(infoHash, |pods|)
  {
    SortedLength(pods);
  }

  lemma SameLocals(rq: Request, pods: seq<Address>, nn: string)
    ensures |PodsOn(Listed(rq, pods), nn)| == |PodsOn(pods, nn)|
  {
    SortedSorts(pods, IpOf);
    PodsOnCounted(pods, nn);
    PodsOnCounted(Sorted(pods, IpOf), nn);
    CountPermuted(pods, Sorted(pods, IpOf), On(nn));
  }

  /** A machine that prefers its own pods falls back to one of them exactly when one is left and the distribution finds
      a pod that is local already or the info hash falls to one of the local pods left; while one is left it falls back
      to no other node. */
  lemma FallbackStaysLocalIff(rq: Request, look: Lookup, nn: string, ignore: set<string>, ip: string)
    requires nn != "" && rq.cfg.preferLocalNode && HasSubset(look)
    ensures var rest, fallback := NotIgnored(Offered(look), ignore + {ip}), Resolve(rq, look, nn, ignore + {ip});
      fallback.Pod? && fallback.address.node == nn <==>
        && InUse(rest, nn)
        && var place := PlaceOf(Distribute(rq, look, rest));
           place.Pod? && (place.address.node == nn || Falls(rq.infoHash, |PodsOn(rest, nn)|))
    ensures var rest, fallback := NotIgnored(Offered(look), ignore + {ip}), Resolve(rq, look, nn, ignore + {ip});
      InUse(rest, nn) && fallback.Pod? ==> fallback.address.node == nn
  {
    var rest := NotIgnored(Offered(look), ignore + {ip});
    hide NotIgnored;
    LocateLocalIff(rq, look, nn, rest);
  }

  lemma LocateLocalIff(rq: Request, look: Lookup, nn: string, pods: seq<Address>)
    requires nn != "" && rq.cfg.preferLocalNode && HasSubset(look)
    ensures var located := Locate(rq, look, nn, pods);
      located.Pod? && located.address.node == nn <==>
        && InUse(pods, nn)
        && var place := PlaceOf(Distribute(rq, look, pods));
           place.Pod? && (place.address.node == nn || Falls(rq.infoHash, |PodsOn(pods, nn)|))
    ensures var located := Locate(rq, look, nn, pods);
      InUse(pods, nn) && located.Pod? ==> located.address.node == nn
  {
    var located := Locate(rq, look, nn, pods);
    if located.Pod? { LocatedIsOffered(rq, look, nn, pods, located.address); }
    if InUse(pods, nn) {
      var locals := PodsOn(Listed(rq, pods), nn);
      SameLocals(rq, pods, nn);
      LocalsAre(rq, nn, pods);
      PlacedIffFalls(rq.infoHash, locals);
      hide Distribute, ByHash, Listed, PodsOn, Falls, InUse;
      var local := PlaceOf(ByHash(rq.infoHash, locals));
      if local.Pod? { ByHashIsThere(rq.infoHash, locals, local.address); }
    }
  }

  lemma LocalsAre(rq: Request, nn: string, pods: seq<Address>)
    requires InUse(pods, nn)
    ensures var locals := PodsOn(Listed(rq, pods), nn); locals != [] && forall a :: a in locals ==> a.node == nn
  {
    var a :| a in pods && a.node == nn;
    PodsOnAreThere(Listed(rq, pods), nn);
    SortedSorts(pods, IpOf);
    assert a in PodsOn(Listed(rq, pods), nn);
  }

  /** With hashing and up to a thousand pods, the fallback of every info hash but those that start with fffff is local
      exactly while a local pod is left. */
  lemma HashedStaysLocalIff(rq: Request, look: Lookup, nn: string, ignore: set<string>, ip: string)
    requires nn != "" && rq.cfg.preferLocalNode && HasSubset(look) && |Offered(look)| <= 1000
    requires rq.cfg.distribution.Hash? && IsInfoHash(rq.infoHash)
    ensures var rest, fallback := NotIgnored(Offered(look), ignore + {ip}), Resolve(rq, look, nn, ignore + {ip});
      fallback.Pod? && fallback.address.node == nn <==> InUse(rest, nn) && Prefix(rq.infoHash) != LAST_PREFIX
  {
    var rest := NotIgnored(Offered(look), ignore + {ip});
    NotIgnoredShorter(Offered(look), ignore + {ip});
    FallbackStaysLocalIff(rq, look, nn, ignore, ip);
    if InUse(rest, nn) {
      PodsOnAreThere(rest, nn);
      PodsOnShorter(rest, nn);
      PlacedIffFalls(rq.infoHash, rest);
      hide Falls, ByHash, NotIgnored, PodsOn, Prefix;
      HashFalls(rq.infoHash, |rest|);
      HashFalls(rq.infoHash, |PodsOn(rest, nn)|);
    }
  }

  lemma HashFalls(infoHash: string, n: nat)
    requires IsInfoHash(infoHash) && 0 < n <= 1000
    ensures Falls(infoHash, n) <==> Prefix(infoHash) != LAST_PREFIX
  {
    InfoHashParses(infoHash);
    PrefixInRange(infoHash);
    hide Prefix, ParsePrefix, HashIndex;
    OnlyLastPrefixUnserved(Prefix(infoHash), n);
  }

  lemma NotIgnoredShorter(pods: seq<Address>, ignore: set<string>)
    ensures |NotIgnored(pods, ignore)| <= |pods|
  {
  }

  lemma PodsOnShorter(pods: seq<Address>, node: string)
    ensures |PodsOn(pods, node)| <= |pods|
  {
  }

  /** The comment on GetFallback says that node hashing keeps the info hash on its node; it does not when the failed
      pod was the node's only one. */
  lemma FallbackMayLeaveTheNode(rq: Request, look: Lookup, f: Address, g: Address)
    requires f == Address("::1", "a") && g == Address("::2", "b")
    requires rq == Request(Config(Kubernetes, NodeHash, false), "00000", "") && look == Lookup(Some([[f, g]]), None, 0)
    ensures Resolve(rq, look, "", {}) == Pod(f) && Resolve(rq, look, "", {f.ip}) == Pod(g)
  {
    assert StrLe("::1", "::2");
    TwoLoneNodes(f, g);
    FirstIgnored(f, g);
    hide ByNodeHash, NotIgnored, StrLe, IsInfoHash;
    NoLocalBranch(rq, look, "", {});
    NoLocalBranch(rq, look, "", {f.ip});
    hide Resolve;
  }

  lemma FirstIgnored(f: Address, g: Address)
    requires f.ip != g.ip
    ensures NotIgnored([f, g], {}) == [f, g] && NotIgnored([f, g], {f.ip}) == [g]
  {
    assert [f, g][..1] == [f];
    assert NotIgnored([f], {}) == [f] && NotIgnored([f], {f.ip}) == [];
  }

  lemma ZeroHash()
    ensures IsInfoHash("00000") && Num("00000") == 0
  {
    assert "00000"[..5] == "00000" && "00000"[..4] == "0000" && "0000"[..3] == "000";
    assert "000"[..2] == "00" && "00"[..1] == "0" && "0"[..0] == "";
    assert HexValue("0") == 0;
    assert HexValue("00") == 0;
    assert HexValue("000") == 0;
    assert HexValue("0000") == 0;
  }

  lemma TwoLoneNodes(f: Address, g: Address)
    requires f.node == "a" && g.node == "b" && StrLe(f.ip, g.ip)
    ensures IsInfoHash("00000") && ByNodeHash("00000", [f, g], "", None) == Picked(Some(f))
    ensures ByNodeHash("00000", [g], "", None) == Picked(Some(g))
  {
    ZeroHash();
    SortedPair(f, g, IpOf);
    SortedPair("a", "b", Itself);
    hide StrLe, Sorted, Num;
    assert [f, g][..1] == [f] && [g][..0] == [] && [f][..0] == [];
    assert NamesOf([f]) == ["a"] && NamesOf([f, g]) == ["a", "b"] && NamesOf([g]) == ["b"];
    assert PodsOn([f], "a") == [f] && PodsOn([f, g], "a") == [f] && PodsOn([g], "b") == [g];
  }
}
