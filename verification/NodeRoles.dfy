// Which nodes a role may use, by the labels of the nodes.
module NodeRoles {
  import opened Basics
  import opened Sorting
  import opened Placement
  import opened ServiceLocation
  import opened Fallback

  lemma OnlyStatOfNode(stats: seq<NodeStat>, s: NodeStat, t: NodeStat)
    requires Distinct(stats, NameOf) && s in stats && t in stats && s.name == t.name
    ensures s == t
  {
    var i :| 0 <= i < |stats| && stats[i] == s;
    var j :| 0 <= j < |stats| && stats[j] == t;
    assert NameOf(stats[i]) == NameOf(stats[j]);
  }

  /** A list of allowed roles decides alone; without one the denied roles are kept off; a node without labels is for
      everyone. */
  lemma LabelsDecide(pods: seq<Address>, role: string, stats: seq<NodeStat>, s: NodeStat)
    requires role != "" && Distinct(stats, NameOf) && s in stats
    ensures var kept := RoleNodes(pods, role, Some(stats));
      && kept.Some?
      && (s.allowed != [] ==> (s.name in kept.value <==> InUse(pods, s.name) && role in s.allowed))
      && (s.allowed == [] && role in s.denied ==> s.name !in kept.value)
      && (s.allowed == [] && role !in s.denied ==> (s.name in kept.value <==> InUse(pods, s.name)))
  {
    SortedNodes(pods);
    OnlyAllowedNodes(NodesOf(pods), stats, role);
    hide InUse, NodesOf, AllowedNodes;
    if Permitted(s.name, stats, role) {
      var t :| t in stats && t.name == s.name && IsAllowed(t, role);
      OnlyStatOfNode(stats, s, t);
    }
  }

  /** A node that no stat names is for no role. */
  lemma UnknownNode(pods: seq<Address>, role: string, stats: seq<NodeStat>, node: string)
    requires role != "" && forall s | s in stats :: s.name != node
    ensures RoleNodes(pods, role, Some(stats)).Some? && node !in RoleNodes(pods, role, Some(stats)).value
  {
    OnlyAllowedNodes(NodesOf(pods), stats, role);
  }

  /** The node has a stat without any labels. */
  ghost predicate Unlabelled(stats: seq<NodeStat>, node: string)
  {
    exists s :: s in stats && s == NodeStat(node, [], [])
  }

  lemma {:induction false} UnlabelledKept(nodes: seq<string>, stats: seq<NodeStat>, role: string)
    requires Distinct(stats, NameOf) && forall n | n in nodes :: Unlabelled(stats, n)
    ensures AllowedNodes(nodes, stats, role) == nodes
  {
    if nodes != [] {
      var n := nodes[|nodes| - 1];
      UnlabelledKept(nodes[..|nodes| - 1], stats, role);
      UnlabelledOnce(n, stats, role);
      hide Copies, Distinct, Unlabelled;
    }
  }

  lemma UnlabelledOnce(node: string, stats: seq<NodeStat>, role: string)
    requires Distinct(stats, NameOf) && Unlabelled(stats, node)
    ensures Copies(node, stats, role) == [node]
  {
    var s :| s in stats && s == NodeStat(node, [], []);
    assert Permitted(node, stats, role) by { assert IsAllowed(s, role); }
    CopiesAllowed(node, stats, role);
    hide Copies, Permitted, Distinct;
    var copies := Copies(node, stats, role);
    assert node in copies;
  }

  /** Where no node in use is labelled, no role filters anything. */
  lemma NoLabelsNoFilter(infoHash: string, pods: seq<Address>, role: string, stats: seq<NodeStat>)
    requires IsInfoHash(infoHash) && Distinct(stats, NameOf)
    requires forall n | InUse(pods, n) :: Unlabelled(stats, n)
    ensures RoleNodes(pods, role, Some(stats)) == RoleNodes(pods, "", None)
    ensures ByNodeHash(infoHash, pods, role, Some(stats)) == ByNodeHash(infoHash, pods, "", None)
  {
    SortedNodes(pods);
    hide Unlabelled, InUse;
    UnlabelledKept(NodesOf(pods), stats, role);
  }

  /** So where none of the offered nodes is, the whole resolution does not look at the role. */
  lemma NoLabelsNoRole(rq: Request, look: Lookup, nn: string, ignore: set<string>)
    requires HasSubset(look) && look.stats.Some? && Distinct(look.stats.value, NameOf)
    requires forall n | InUse(Offered(look), n) :: Unlabelled(look.stats.value, n)
    ensures Resolve(rq, look, nn, ignore) == Resolve(rq.(role := ""), look, nn, ignore)
  {
    var pods := NotIgnored(Offered(look), ignore);
    NotIgnoredAre(Offered(look), ignore);
    hide NotIgnored;
    forall n | InUse(pods, n) ensures Unlabelled(look.stats.value, n) { assert InUse(Offered(look), n); }
    hide InUse, Unlabelled;
    if IsInfoHash(rq.infoHash) {
      NoLabelsNoFilter(rq.infoHash, pods, rq.role, look.stats.value);
      RoleLess(rq.infoHash, pods, look.stats);
      hide ByNodeHash, ByHash;
    }
  }

  lemma RoleLess(infoHash: string, pods: seq<Address>, stats: Option<seq<NodeStat>>)
    requires IsInfoHash(infoHash)
    ensures ByNodeHash(infoHash, pods, "", stats) == ByNodeHash(infoHash, pods, "", None)
  {
  }

  /** Node hashing takes a role to no node whose labels keep it off. */
  ghost predicate KeptOff(stats: seq<NodeStat>, role: string, node: string)
  {
    exists s :: s in stats && s.name == node && if s.allowed != [] then role !in s.allowed else role in s.denied
  }

  lemma KeptOffNotChosen(infoHash: string, pods: seq<Address>, role: string, stats: seq<NodeStat>, a: Address)
    requires IsInfoHash(infoHash) && role != "" && Distinct(stats, NameOf)
    requires ByNodeHash(infoHash, pods, role, Some(stats)) == Picked(Some(a))
    ensures !KeptOff(stats, role, a.node)
  {
    ChosenNodeAllowed(infoHash, pods, role, Some(stats), a);
    var t :| t in stats && t.name == a.node && IsAllowed(t, role);
    forall s | s in stats && s.name == a.node ensures s == t { OnlyStatOfNode(stats, s, t); }
  }

  /** A located pod was picked by the distribution, or is a local one that the machine prefers. */
  lemma PickedOrLocal(rq: Request, look: Lookup, nn: string, pods: seq<Address>, a: Address)
    requires Locate(rq, look, nn, pods) == Pod(a)
    ensures pods != []
    ensures PlaceOf(Distribute(rq, look, pods)) == Pod(a) || (rq.cfg.preferLocalNode && nn != "" && a.node == nn)
  {
    hide Distribute, ByHash, Listed, PodsOn;
    if PlaceOf(Distribute(rq, look, pods)) != Pod(a) {
      var locals := PodsOn(Listed(rq, pods), nn);
      ByHashIsThere(rq.infoHash, locals, a);
      PodsOnAreThere(Listed(rq, pods), nn);
    }
  }

  /** Nor does the whole resolution, but for a machine that prefers its own pods: these are chosen whatever the role. */
  lemma KeptOffUnlessLocal(rq: Request, look: Lookup, nn: string, ignore: set<string>, a: Address)
    requires rq.cfg.distribution.NodeHash? && IsInfoHash(rq.infoHash) && rq.role != ""
    requires look.stats.Some? && Distinct(look.stats.value, NameOf) && Resolve(rq, look, nn, ignore) == Pod(a)
    ensures KeptOff(look.stats.value, rq.role, a.node) ==> rq.cfg.preferLocalNode && nn != "" && a.node == nn
  {
    var pods := NotIgnored(Offered(look), ignore);
    PickedOrLocal(rq, look, nn, pods, a);
    hide ByNodeHash, ByHash, NotIgnored, KeptOff, PodsOn, Listed, Locate, Distinct, IsInfoHash;
    if PlaceOf(Distribute(rq, look, pods)) == Pod(a) {
      KeptOffNotChosen(rq.infoHash, pods, rq.role, look.stats.value, a);
    }
  }

  /** Such a machine sends a role that its own node keeps off to one of its own pods exactly when it has one, node
      hashing finds a pod elsewhere, and the info hash falls to one of its own. */
  lemma LocalForAnyRoleIff(rq: Request, look: Lookup, nn: string, ignore: set<string>)
    requires rq.cfg.distribution.NodeHash? && IsInfoHash(rq.infoHash) && rq.role != "" && HasSubset(look)
    requires look.stats.Some? && Distinct(look.stats.value, NameOf) && rq.cfg.preferLocalNode && nn != ""
    requires KeptOff(look.stats.value, rq.role, nn)
    ensures var pods, located := NotIgnored(Offered(look), ignore), Resolve(rq, look, nn, ignore);
      located.Pod? && located.address.node == nn <==>
        && InUse(pods, nn) && PlaceOf(ByNodeHash(rq.infoHash, pods, rq.role, look.stats)).Pod?
        && Falls(rq.infoHash, |PodsOn(pods, nn)|)
  {
    var pods := NotIgnored(Offered(look), ignore);
    LocateLocalIff(rq, look, nn, pods);
    var outcome := ByNodeHash(rq.infoHash, pods, rq.role, look.stats);
    hide ByNodeHash, ByHash, NotIgnored, KeptOff, PodsOn, Listed, Falls, InUse, Locate;
    if PlaceOf(outcome).Pod? {
      KeptOffNotChosen(rq.infoHash, pods, rq.role, look.stats.value, PlaceOf(outcome).address);
    }
  }
}
