// Resolution of a service to a pod: filtering, sorting, role rules, local preference and fallback.
module ServiceLocation {
  import opened Basics
  import opened Sorting
  import opened Placement

  function IpOf(a: Address): string { a.ip }

  function Itself(s: string): string { s }

  // ---------------------------------------------------------------- nodes and roles

  /** The node names in use, each once, in order of first use. */
  function NamesOf(pods: seq<Address>): seq<string>
  {
    if pods == [] then []
    else
      var names, last := NamesOf(pods[..|pods| - 1]), pods[|pods| - 1].node;
      if last in names then names else names + [last]
  }

  function NodesOf(pods: seq<Address>): seq<string> { Sorted(NamesOf(pods), Itself) }

  datatype NodeStat = NodeStat(name: string, allowed: seq<string>, denied: seq<string>)

  function NameOf(s: NodeStat): string { s.name }

  predicate IsAllowed(s: NodeStat, role: string)
  {
    if s.allowed != [] then role in s.allowed else role !in s.denied
  }

  /** One copy of the node for every stat that names it and allows the role. */
  function Copies(node: string, stats: seq<NodeStat>, role: string): seq<string>
  {
    if stats == [] then []
    else
      var s := stats[|stats| - 1];
      Copies(node, stats[..|stats| - 1], role) + if node == s.name && IsAllowed(s, role) then [node] else []
  }

  function AllowedNodes(nodes: seq<string>, stats: seq<NodeStat>, role: string): seq<string>
  {
    if nodes == [] then []
    else AllowedNodes(nodes[..|nodes| - 1], stats, role) + Copies(nodes[|nodes| - 1], stats, role)
  }

  /** A missing or empty role filters nothing; stats is None when the node list cannot be had. */
  function FilterByRole(nodes: seq<string>, role: string, stats: Option<seq<NodeStat>>): Option<seq<string>>
  {
    if role == "" then Some(nodes)
    else if stats.None? then None
    else Some(AllowedNodes(nodes, stats.value, role))
  }

  method FilterNodesByRole(nodes: seq<string>, role: string, stats: Option<seq<NodeStat>>)
    returns (kept: Option<seq<string>>)
    ensures kept == FilterByRole(nodes, role, stats)
  {
    if role == "" {
      return Some(nodes);
    }
    if stats.None? {
      return None;
    }
    var ns, res := stats.value, [];
    for i := 0 to |nodes|
      invariant res == AllowedNodes(nodes[..i], ns, role)
    {
      ghost var before := res;
      for j := 0 to |ns|
        invariant res == before + Copies(nodes[i], ns[..j], role)
      {
        assert ns[..j + 1][..j] == ns[..j];
        if nodes[i] == ns[j].name && IsAllowed(ns[j], role) {
          res := res + [nodes[i]];
        }
      }
      assert ns[..|ns|] == ns && nodes[..i + 1][..i] == nodes[..i];
    }
    assert nodes[..|nodes|] == nodes;
    kept := Some(res);
  }

  ghost predicate InUse(pods: seq<Address>, node: string)
  {
    exists p :: p in pods && p.node == node
  }

  /** Some stat names the node and allows the role. */
  ghost predicate Permitted(node: string, stats: seq<NodeStat>, role: string)
  {
    exists s :: s in stats && s.name == node && IsAllowed(s, role)
  }

  lemma {:induction false} NamesAreNodes(pods: seq<Address>)
    ensures forall n :: n in NamesOf(pods) <==> InUse(pods, n)
    ensures Distinct(NamesOf(pods), Itself)
  {
    if pods != [] {
      var k := |pods| - 1;
      NamesAreNodes(pods[..k]);
      assert forall p :: p in pods <==> p in pods[..k] || p == pods[k];
      assert forall n :: InUse(pods, n) <==> InUse(pods[..k], n) || n == pods[k].node;
    }
  }

  lemma {:induction false} CopiesAllowed(node: string, stats: seq<NodeStat>, role: string)
    ensures forall n :: n in Copies(node, stats, role) <==> n == node && Permitted(node, stats, role)
    ensures Distinct(stats, NameOf) ==> |Copies(node, stats, role)| <= 1
  {
    if stats != [] {
      var k := |stats| - 1;
      CopiesAllowed(node, stats[..k], role);
      assert forall s :: s in stats <==> s in stats[..k] || s == stats[k];
      var before := Copies(node, stats[..k], role);
      if before != [] { assert before[0] in before; }
    }
  }

  /** Filtering keeps exactly the nodes the role may use. */
  lemma {:induction false} OnlyAllowedNodes(nodes: seq<string>, stats: seq<NodeStat>, role: string)
    ensures forall n :: n in AllowedNodes(nodes, stats, role) <==> n in nodes && Permitted(n, stats, role)
  {
    if nodes != [] {
      var k := |nodes| - 1;
      OnlyAllowedNodes(nodes[..k], stats, role);
      CopiesAllowed(nodes[k], stats, role);
      hide Copies, Permitted;
      var before, copies := AllowedNodes(nodes[..k], stats, role), Copies(nodes[k], stats, role);
      assert AllowedNodes(nodes, stats, role) == before + copies;
      hide AllowedNodes;
      assert forall n :: n in nodes <==> n in nodes[..k] || n == nodes[k];
      assert forall n :: n in before + copies <==> n in before || n in copies;
    }
  }

  lemma {:induction false} AllowedOnce(nodes: seq<string>, stats: seq<NodeStat>, role: string)
    requires Distinct(nodes, Itself) && Distinct(stats, NameOf)
    ensures Distinct(AllowedNodes(nodes, stats, role), Itself)
  {
    if nodes != [] {
      var k := |nodes| - 1;
      AllowedOnce(nodes[..k], stats, role);
      OnlyAllowedNodes(nodes[..k], stats, role);
      CopiesAllowed(nodes[k], stats, role);
      var before, copies := AllowedNodes(nodes[..k], stats, role), Copies(nodes[k], stats, role);
      assert AllowedNodes(nodes, stats, role) == before + copies && |copies| <= 1;
      hide Copies, AllowedNodes;
      forall i, j | 0 <= i < j < |before + copies| ensures (before + copies)[i] != (before + copies)[j] {
        assert before[i] in before;
        if j == |before| { assert copies[0] in copies && nodes[k] !in nodes[..k]; }
      }
    }
  }

  lemma SortedNodes(pods: seq<Address>)
    ensures Distinct(NodesOf(pods), Itself)
    ensures forall n :: n in NodesOf(pods) <==> InUse(pods, n)
  {
    NamesAreNodes(pods);
    SortedSorts(NamesOf(pods), Itself);
    DistinctPermuted(NamesOf(pods), NodesOf(pods), Itself);
  }

  // ---------------------------------------------------------------- the two distributions

  function HashChoice(num: int, pods: seq<Address>): Option<Address>
    requires pods != []
  {
    var sorted := Sorted(pods, IpOf);
    if sorted == [] then None
    else if num < 0 then Some(sorted[0])
    else
      match HashIndex(num, |sorted|)
      case Some(i) => Some(sorted[i])
      case None => None
  }

  function NodeHashChoice(num: nat, pods: seq<Address>, nodes: seq<string>): Option<Address>
  {
    NodeChoice(num, nodes, Sorted(pods, IpOf))
  }

  /** The nodes a role may use; None when they cannot be looked up. */
  function RoleNodes(pods: seq<Address>, role: string, stats: Option<seq<NodeStat>>): Option<seq<string>>
  {
    FilterByRole(NodesOf(pods), role, stats)
  }

  /** Crashes is a slice out of range. */
  datatype Outcome = Picked(pick: Option<Address>) | Errs | Crashes

  function ByHash(infoHash: string, pods: seq<Address>): Outcome
    requires pods != []
  {
    if |infoHash| < 5 then Crashes
    else
      match ParsePrefix(infoHash)
      case None => Errs
      case Some(prefix) => Picked(HashChoice(prefix * 1000, pods))
  }

  function ByNodeHash(infoHash: string, pods: seq<Address>, role: string, stats: Option<seq<NodeStat>>): Outcome
    requires IsInfoHash(infoHash)
  {
    match RoleNodes(pods, role, stats)
    case None => Errs
    case Some(nodes) => Picked(NodeHashChoice(Num(infoHash), pods, nodes))
  }

  lemma KeptAreServed(pods: seq<Address>, role: string, stats: Option<seq<NodeStat>>)
    requires RoleNodes(pods, role, stats).Some?
    ensures var nodes := RoleNodes(pods, role, stats).value;
      AllServed(nodes, Sorted(pods, IpOf)) && forall n :: n in nodes ==> InUse(pods, n)
  {
    var nodes, sorted := RoleNodes(pods, role, stats).value, Sorted(pods, IpOf);
    SortedNodes(pods);
    SortedSorts(pods, IpOf);
    if role != "" { OnlyAllowedNodes(NodesOf(pods), stats.value, role); }
    forall i | 0 <= i < |nodes| ensures PodsOn(sorted, nodes[i]) != [] {
      assert nodes[i] in NodesOf(pods);
      var p :| p in pods && p.node == nodes[i];
      PodsOnAreThere(sorted, nodes[i]);
      assert p in PodsOn(sorted, nodes[i]);
    }
  }

  lemma SortedLength(pods: seq<Address>)
    ensures |Sorted(pods, IpOf)| == |pods|
  {
    SortedSorts(pods, IpOf);
    assert |multiset(Sorted(pods, IpOf))| == |multiset(pods)|;
  }

  method DistributeByHash(infoHash: string, pods: seq<Address>) returns (outcome: Outcome)
    requires pods != []
    ensures outcome == ByHash(infoHash, pods)
  {
    var sorted := Sorted(pods, IpOf);
    SortedLength(pods);
    if |infoHash| < 5 {
      return Crashes;
    }
    var prefix := ParsePrefix(infoHash);
    if prefix.None? {
      return Errs;
    }
    var pick := ScanPods(prefix.value * 1000, sorted);
    outcome := Picked(pick);
  }

  method DistributeByNodeHash(infoHash: string, pods: seq<Address>, role: string, stats: Option<seq<NodeStat>>)
    returns (outcome: Outcome)
    requires IsInfoHash(infoHash)
    ensures outcome == ByNodeHash(infoHash, pods, role, stats)
  {
    var nodes := FilterNodesByRole(NodesOf(pods), role, stats);
    if nodes.None? {
      return Errs;
    }
    KeptAreServed(pods, role, stats);
    var pick := ScanNodes(Num(infoHash), nodes.value, Sorted(pods, IpOf));
    outcome := Picked(pick);
  }

  /** With up to a thousand pods the only info hashes without a pod are those that start with fffff. */
  lemma OnlyLastHashUnserved(infoHash: string, pods: seq<Address>)
    requires IsInfoHash(infoHash) && 0 < |pods| <= 1000
    ensures ByHash(infoHash, pods).Picked?
    ensures ByHash(infoHash, pods).pick == None <==> Prefix(infoHash) == LAST_PREFIX
  {
    InfoHashParses(infoHash);
    PrefixInRange(infoHash);
    SortedLength(pods);
    hide Prefix, ParsePrefix, Sorted, HashIndex;
    OnlyLastPrefixUnserved(Prefix(infoHash), |pods|);
  }

  /** Filtering leaves a role without any node exactly when no node in use is permitted. */
  lemma NoNodeForRoleIff(pods: seq<Address>, role: string, stats: seq<NodeStat>)
    requires role != ""
    ensures RoleNodes(pods, role, Some(stats)) == Some([])
      <==> forall n :: InUse(pods, n) ==> !Permitted(n, stats, role)
  {
    var nodes := AllowedNodes(NodesOf(pods), stats, role);
    SortedNodes(pods);
    OnlyAllowedNodes(NodesOf(pods), stats, role);
    hide Permitted, InUse;
    if nodes != [] { assert nodes[0] in nodes; }
  }

  /** Node hashing picks nobody, without an error, exactly when the role is left without a node, when the nodes are too
      many for an interval, or when the info hash falls behind the last pod of the last node. */
  lemma NobodyPickedIff(infoHash: string, pods: seq<Address>, role: string, stats: Option<seq<NodeStat>>)
    requires IsInfoHash(infoHash) && RoleNodes(pods, role, stats).Some?
    ensures var nodes := RoleNodes(pods, role, stats).value;
      var span := SpanOf(nodes);
      ByNodeHash(infoHash, pods, role, stats) == Picked(None) <==>
        || nodes == [] || span == 0
        || var q, last := Num(infoHash) / span, |nodes| - 1;
           q > last || (q == last && Behind(Num(infoHash) % span, span, |PodsOn(Sorted(pods, IpOf), nodes[last])|))
  {
    KeptAreServed(pods, role, stats);
    hide RoleNodes, Sorted, PodsOn, Num, SpanOf, NodeChoice, Behind, AllServed;
    NobodyChosenIff(Num(infoHash), RoleNodes(pods, role, stats).value, Sorted(pods, IpOf));
  }

  lemma NobodyChosenIff(num: nat, nodes: seq<string>, pods: seq<Address>)
    requires AllServed(nodes, pods)
    ensures var span := SpanOf(nodes);
      NodeChoice(num, nodes, pods) == None <==>
        || nodes == [] || span == 0
        || var q, last := num / span, |nodes| - 1;
           q > last || (q == last && Behind(num % span, span, |PodsOn(pods, nodes[last])|))
  {
    var span := SpanOf(nodes);
    SpanOfNone(nodes);
    hide PodsOn, SpanOf, ChoiceAt, Behind, AllServed;
    if span > 0 { NobodyAt(num / span, num % span, span, nodes, pods); }
  }

  /** The offset is in the rounding rest of a node with m pods. */
  predicate Behind(r: nat, span: nat, m: nat) { m == 0 || r >= m * (span / m) }

  lemma SpanOfNone(nodes: seq<string>)
    ensures nodes == [] ==> SpanOf(nodes) == 0
  {
  }

  lemma NobodyAt(q: nat, r: nat, span: nat, nodes: seq<string>, pods: seq<Address>)
    requires AllServed(nodes, pods)
    ensures ChoiceAt(q, r, span, nodes, pods) == None <==>
      q >= |nodes| || (q == |nodes| - 1 && Behind(r, span, |PodsOn(pods, nodes[q])|))
  {
  }

  /** Any chosen pod is one of the pods, on a node that the role may use. */
  lemma ChosenNodeAllowed(infoHash: string, pods: seq<Address>, role: string, stats: Option<seq<NodeStat>>, a: Address)
    requires IsInfoHash(infoHash) && ByNodeHash(infoHash, pods, role, stats) == Picked(Some(a))
    ensures a in pods
    ensures role != "" ==> stats.Some? && Permitted(a.node, stats.value, role)
  {
    ChosenIsThere(Num(infoHash), RoleNodes(pods, role, stats).value, Sorted(pods, IpOf), a);
    SortedSorts(pods, IpOf);
    if role != "" { OnlyAllowedNodes(NodesOf(pods), stats.value, role); }
  }

  lemma ChosenIsThere(num: nat, nodes: seq<string>, pods: seq<Address>, a: Address)
    requires NodeChoice(num, nodes, pods) == Some(a)
    ensures a in pods && a.node in nodes
  {
    var span := SpanOf(nodes);
    hide ChoiceAt, SpanOf;
    ChosenAt(num / span, num % span, span, nodes, pods, a);
  }

  lemma ChosenAt(q: nat, r: nat, span: nat, nodes: seq<string>, pods: seq<Address>, a: Address)
    requires ChoiceAt(q, r, span, nodes, pods) == Some(a)
    ensures a in pods && a.node in nodes
  {
    assert a in PodsOn(pods, nodes[q]) || (q + 1 < |nodes| && a in PodsOn(pods, nodes[q + 1]));
    hide ChoiceAt, PodsOn, HomeSlot;
    var home := if a in PodsOn(pods, nodes[q]) then nodes[q] else nodes[q + 1];
    PodsOnAreThere(pods, home);
  }

  lemma ByHashIsThere(infoHash: string, pods: seq<Address>, a: Address)
    requires pods != [] && ByHash(infoHash, pods) == Picked(Some(a))
    ensures a in pods
  {
    SortedSorts(pods, IpOf);
  }

  /** With distinct IPs neither distribution depends on the order in which the pods are listed. */
  lemma ChoiceIgnoresOrder(infoHash: string, a: seq<Address>, b: seq<Address>, role: string,
      stats: Option<seq<NodeStat>>)
    requires multiset(a) == multiset(b) && Distinct(a, IpOf) && a != [] && b != [] && IsInfoHash(infoHash)
    ensures ByHash(infoHash, a) == ByHash(infoHash, b)
    ensures ByNodeHash(infoHash, a, role, stats) == ByNodeHash(infoHash, b, role, stats)
  {
    OrderDoesNotMatter(a, b, IpOf);
    assert forall p :: p in a <==> p in multiset(a);
    assert forall p :: p in b <==> p in multiset(b);
    assert forall n :: InUse(a, n) <==> InUse(b, n);
    SameNodes(a, b);
  }

  lemma SameNodes(a: seq<Address>, b: seq<Address>)
    requires forall n :: InUse(a, n) <==> InUse(b, n)
    ensures NodesOf(a) == NodesOf(b)
  {
    NamesAreNodes(a);
    NamesAreNodes(b);
    SameElements(NamesOf(a), NamesOf(b), Itself);
    OrderDoesNotMatter(NamesOf(a), NamesOf(b), Itself);
  }

  // ---------------------------------------------------------------- resolution

  datatype Distribution = Hash | NodeHash | NoDistribution

  datatype Provider = Kubernetes | Environment

  datatype Config = Config(provider: Provider, distribution: Distribution, preferLocalNode: bool)

  /** Failed is an error return. */
  datatype Place = Pod(address: Address) | Unavailable | Failed | Crashed

  /** What one resolution asks of the world: the endpoint subsets and node stats (None when they cannot be had) and
      the random number for info hashes that cannot be placed by their prefix. */
  datatype Lookup = Lookup(subsets: Option<seq<seq<Address>>>, stats: Option<seq<NodeStat>>, draw: nat)

  predicate HasSubset(look: Lookup) { look.subsets.Some? && look.subsets.value != [] }

  /** Only the first subset is used. */
  function Offered(look: Lookup): seq<Address>
    requires HasSubset(look)
  {
    look.subsets.value[0]
  }

  datatype Request = Request(cfg: Config, infoHash: string, role: string)

  function NotIgnored(pods: seq<Address>, ignore: set<string>): seq<Address>
  {
    if pods == [] then []
    else
      var last := pods[|pods| - 1];
      NotIgnored(pods[..|pods| - 1], ignore) + if last.ip in ignore then [] else [last]
  }

  function Distribute(rq: Request, look: Lookup, pods: seq<Address>): Outcome
    requires pods != []
  {
    if !IsInfoHash(rq.infoHash) then Picked(Some(pods[look.draw % |pods|]))
    else
      match rq.cfg.distribution
      case Hash => ByHash(rq.infoHash, pods)
      case NodeHash => ByNodeHash(rq.infoHash, pods, rq.role, look.stats)
      case NoDistribution => Picked(None)
  }

  function PlaceOf(outcome: Outcome): Place
  {
    match outcome
    case Errs => Failed
    case Crashes => Crashed
    case Picked(None) => Unavailable
    case Picked(Some(a)) => Pod(a)
  }

  /** The distributions sort the pods they are given, and the local ones are taken from the sorted list. */
  function Listed(rq: Request, pods: seq<Address>): seq<Address>
  {
    if IsInfoHash(rq.infoHash) && !rq.cfg.distribution.NoDistribution? then Sorted(pods, IpOf) else pods
  }

  /** The pod a request is sent to, on the machine nn, among the pods that are not ignored. */
  function Locate(rq: Request, look: Lookup, nn: string, pods: seq<Address>): Place
  {
    if pods == [] then Unavailable
    else
      var place := PlaceOf(Distribute(rq, look, pods));
      var locals := PodsOn(Listed(rq, pods), nn);
      if place.Pod? && nn != "" && place.address.node != nn && rq.cfg.preferLocalNode && locals != [] then
        PlaceOf(ByHash(rq.infoHash, locals))
      else place
  }

  lemma DistributedIsThere(rq: Request, look: Lookup, pods: seq<Address>, a: Address)
    requires pods != [] && Distribute(rq, look, pods) == Picked(Some(a))
    ensures a in pods
  {
    if IsInfoHash(rq.infoHash) {
      hide ByHash, ByNodeHash;
      if rq.cfg.distribution.NodeHash? {
        ChosenNodeAllowed(rq.infoHash, pods, rq.role, look.stats, a);
      } else {
        ByHashIsThere(rq.infoHash, pods, a);
      }
    }
  }

  lemma LocalIsThere(rq: Request, nn: string, pods: seq<Address>, a: Address)
    requires a in PodsOn(Listed(rq, pods), nn)
    ensures a in pods
  {
    PodsOnAreThere(Listed(rq, pods), nn);
    SortedSorts(pods, IpOf);
  }

  /** A located pod is one of those offered. */
  lemma LocatedIsOffered(rq: Request, look: Lookup, nn: string, pods: seq<Address>, a: Address)
    requires Locate(rq, look, nn, pods) == Pod(a)
    ensures a in pods
  {
    var locals := PodsOn(Listed(rq, pods), nn);
    hide Distribute, Listed, ByHash, PodsOn;
    if PlaceOf(Distribute(rq, look, pods)) == Pod(a) {
      DistributedIsThere(rq, look, pods, a);
    } else {
      ByHashIsThere(rq.infoHash, locals, a);
      LocalIsThere(rq, nn, pods, a);
    }
  }

  lemma {:induction false} NotIgnoredAre(pods: seq<Address>, ignore: set<string>)
    ensures forall a :: a in NotIgnored(pods, ignore) <==> a in pods && a.ip !in ignore
  {
    if pods != [] {
      NotIgnoredAre(pods[..|pods| - 1], ignore);
      assert forall a :: a in pods <==> a in pods[..|pods| - 1] || a == pods[|pods| - 1];
    }
  }

  /** An ignored address is never returned, however the request is distributed. */
  lemma NeverIgnored(rq: Request, look: Lookup, nn: string, pods: seq<Address>, ignore: set<string>, a: Address)
    requires Locate(rq, look, nn, NotIgnored(pods, ignore)) == Pod(a)
    ensures a in pods && a.ip !in ignore
  {
    LocatedIsOffered(rq, look, nn, NotIgnored(pods, ignore), a);
    NotIgnoredAre(pods, ignore);
  }

  /** A role without a permitted node is told that the service is unavailable, which is not an error. */
  lemma NoNodeIsUnavailable(rq: Request, look: Lookup, nn: string, pods: seq<Address>)
    requires rq.cfg.distribution.NodeHash? && IsInfoHash(rq.infoHash) && rq.role != "" && look.stats.Some?
    requires forall n :: InUse(pods, n) ==> !Permitted(n, look.stats.value, rq.role)
    ensures Locate(rq, look, nn, pods) == Unavailable
  {
    if pods != [] {
      NoNodeForRoleIff(pods, rq.role, look.stats.value);
      hide RoleNodes, Permitted, InUse, ChoiceAt;
      NobodyPickedIff(rq.infoHash, pods, rq.role, look.stats);
    }
  }

  /** As with one pod on a node that only another role may use. */
  lemma OtherRolesNode(rq: Request, look: Lookup, pod: Address)
    requires rq == Request(Config(Kubernetes, NodeHash, false), "00000", "free")
    requires pod == Address("::1", "a") && look == Lookup(Some([[pod]]), Some([NodeStat("a", ["paid"], [])]), 0)
    ensures Locate(rq, look, "", [pod]) == Unavailable
  {
    NoNodeIsUnavailable(rq, look, "", [pod]);
  }

  function Resolve(rq: Request, look: Lookup, nn: string, ignore: set<string>): Place
  {
    if look.subsets.None? then Failed
    else if look.subsets.value == [] then Crashed
    else Locate(rq, look, nn, NotIgnored(Offered(look), ignore))
  }

  /** What one try with probing meets: its lookup, and the addresses whose probe would go well. */
  datatype Try = Try(look: Lookup, healthy: set<string>)

  /** Resolution with probing over the tries still allowed: the place and the ignore list it leaves. */
  function Probed(rq: Request, tries: seq<Try>, nn: string, ignore: set<string>): (Place, set<string>)
  {
    if tries == [] then (Unavailable, ignore)
    else
      var place := Resolve(rq, tries[0].look, nn, ignore);
      if place.Pod? && place.address.ip !in tries[0].healthy then
        Probed(rq, tries[1..], nn, ignore + {place.address.ip})
      else (place, ignore)
  }

  /** A pod found by probing is not ignored and answered its probe. */
  lemma {:induction false} ProbedPodIsHealthy(rq: Request, tries: seq<Try>, nn: string, ignore: set<string>)
    ensures var (place, after) := Probed(rq, tries, nn, ignore);
      place.Pod? ==> place.address.ip !in after && exists t :: t in tries && place.address.ip in t.healthy
  {
    if tries != [] {
      var place := Resolve(rq, tries[0].look, nn, ignore);
      ResolvedIsNotIgnored(rq, tries[0].look, nn, ignore);
      hide Resolve;
      if place.Pod? {
        if place.address.ip in tries[0].healthy {
          assert tries[0] in tries;
        } else {
          ProbedPodIsHealthy(rq, tries[1..], nn, ignore + {place.address.ip});
        }
      }
    }
  }

  ghost predicate FailedProbe(tries: seq<Try>, ip: string)
  {
    exists t :: t in tries && ip !in t.healthy
  }

  /** Every address that probing adds to the ignore list failed a probe. */
  lemma {:induction false} OnlyUnhealthyIgnored(rq: Request, tries: seq<Try>, nn: string, ignore: set<string>,
      ip: string)
    requires ip in Probed(rq, tries, nn, ignore).1
    ensures ip in ignore || FailedProbe(tries, ip)
  {
    if tries != [] {
      var place := Resolve(rq, tries[0].look, nn, ignore);
      hide Resolve;
      assert tries[0] in tries;
      if place.Pod? && place.address.ip !in tries[0].healthy {
        OnlyUnhealthyIgnored(rq, tries[1..], nn, ignore + {place.address.ip}, ip);
      }
    }
  }

  /** How many tries find a pod whose probe fails. */
  function FailedTries(rq: Request, tries: seq<Try>, nn: string, ignore: set<string>): nat
  {
    if tries == [] then 0
    else
      var place := Resolve(rq, tries[0].look, nn, ignore);
      if place.Pod? && place.address.ip !in tries[0].healthy then
        1 + FailedTries(rq, tries[1..], nn, ignore + {place.address.ip})
      else 0
  }

  /** Every failed try ignores one more address, one that was not ignored before; when all tries fail the service is
      unavailable. */
  lemma {:induction false} OneMoreIgnoredEachTry(rq: Request, tries: seq<Try>, nn: string, ignore: set<string>)
    ensures var (place, after) := Probed(rq, tries, nn, ignore); var failed := FailedTries(rq, tries, nn, ignore);
      && ignore <= after && |after| == |ignore| + failed && failed <= |tries|
      && (failed == |tries| ==> place == Unavailable)
  {
    if tries != [] {
      ResolvedIsNotIgnored(rq, tries[0].look, nn, ignore);
      hide Resolve;
      var place := Resolve(rq, tries[0].look, nn, ignore);
      if place.Pod? && place.address.ip !in tries[0].healthy {
        OneMoreIgnoredEachTry(rq, tries[1..], nn, ignore + {place.address.ip});
      }
    }
  }

  lemma ResolvedIsNotIgnored(rq: Request, look: Lookup, nn: string, ignore: set<string>)
    ensures var place := Resolve(rq, look, nn, ignore);
      place.Pod? ==> place.address.ip !in ignore && HasSubset(look) && place.address in Offered(look)
  {
    var place := Resolve(rq, look, nn, ignore);
    if place.Pod? { NeverIgnored(rq, look, nn, Offered(look), ignore, place.address); }
  }

  class ServiceLocation {
    const nn: string
    var ignore: set<string>

    constructor (nn: string)
      ensures this.nn == nn && ignore == {}
    {
      this.nn := nn;
      ignore := {};
    }

    /** Entries of the ignore list lapse after a while; resolution is then what it was before they were ignored. */
    method Lapse(ips: set<string>)
      modifies this
      ensures ignore == old(ignore) - ips
      ensures forall rq, look, before: set<string> | old(ignore) == before + ips && before !! ips ::
        Resolve(rq, look, nn, ignore) == Resolve(rq, look, nn, before)
    {
      ignore := ignore - ips;
    }

    method FilterAddressesByIgnore(pods: seq<Address>) returns (kept: seq<Address>)
      ensures kept == NotIgnored(pods, ignore)
    {
      kept := [];
      for i := 0 to |pods|
        invariant kept == NotIgnored(pods[..i], ignore)
      {
        assert pods[..i + 1][..i] == pods[..i];
        if pods[i].ip in ignore {
          continue;
        }
        kept := kept + [pods[i]];
      }
      assert pods[..|pods|] == pods;
    }

    method LocalAddresses(pods: seq<Address>) returns (locals: seq<Address>)
      ensures locals == PodsOn(pods, nn)
    {
      locals := [];
      for i := 0 to |pods|
        invariant locals == PodsOn(pods[..i], nn)
      {
        assert pods[..i + 1][..i] == pods[..i];
        if pods[i].node == nn {
          locals := locals + [pods[i]];
        }
      }
      assert pods[..|pods|] == pods;
    }

    method GetKubernetes(rq: Request, look: Lookup) returns (place: Place)
      ensures place == Resolve(rq, look, nn, ignore)
    {
      if look.subsets.None? {
        return Failed;
      }
      if look.subsets.value == [] {
        return Crashed;
      }
      var pods := FilterAddressesByIgnore(Offered(look));
      if pods == [] {
        return Unavailable;
      }
      var outcome := Picked(None);
      if !IsInfoHash(rq.infoHash) {
        outcome := Picked(Some(pods[look.draw % |pods|]));
      } else if rq.cfg.distribution == Hash {
        outcome := DistributeByHash(rq.infoHash, pods);
      } else if rq.cfg.distribution == NodeHash {
        outcome := DistributeByNodeHash(rq.infoHash, pods, rq.role, look.stats);
      }
      place := PlaceOf(outcome);
      if place.Pod? && nn != "" && place.address.node != nn && rq.cfg.preferLocalNode {
        var locals := LocalAddresses(Listed(rq, pods));
        if locals != [] {
          outcome := DistributeByHash(rq.infoHash, locals);
          place := PlaceOf(outcome);
        }
      }
    }

    /** environment is what the service's environment variables give. */
    method GetFallback(rq: Request, look: Lookup, excludeIp: string, environment: Place) returns (place: Place)
      modifies this
      ensures rq.cfg.provider == Environment ==> place == environment && ignore == old(ignore)
      ensures rq.cfg.provider == Kubernetes ==>
        && ignore == old(ignore) + {excludeIp}
        && var resolved := Resolve(rq, look, nn, ignore);
           place == if resolved == Unavailable then Failed else resolved
      ensures rq.cfg.provider == Kubernetes && place.Pod? ==> place.address.ip != excludeIp
    {
      if rq.cfg.provider == Environment {
        return environment;
      }
      ignore := ignore + {excludeIp};
      place := GetKubernetes(rq, look);
      ResolvedIsNotIgnored(rq, look, nn, ignore);
      if place == Unavailable {
        return Failed;
      }
    }

    method GetKubernetesWithProbeCheck(rq: Request, tries: seq<Try>) returns (place: Place)
      requires |tries| == 3
      modifies this
      ensures (place, ignore) == Probed(rq, tries, nn, old(ignore))
    {
      var i := 0;
      while true
        invariant i <= 3
        invariant Probed(rq, tries[i..], nn, ignore) == Probed(rq, tries, nn, old(ignore))
        decreases 3 - i
      {
        if i > 2 {
          return Unavailable;
        }
        place := GetKubernetes(rq, tries[i].look);
        if !place.Pod? {
          return;
        }
        if place.address.ip in tries[i].healthy {
          return;
        }
        assert tries[i..][1..] == tries[i + 1..];
        ignore := ignore + {place.address.ip};
        i := i + 1;
      }
    }
  }
}
