// The rolling window of distinct client subnets on one path.
module IpWindow {

  /** One request: the normalised subnet and the time it came, in milliseconds. */
  datatype Visit = Visit(subnet: string, at: int)

  const WINDOW := 60_000

  function Prune(ips: map<string, int>, cutoff: int): map<string, int>
  {
    map k | k in ips && ips[k] >= cutoff :: ips[k]
  }

  /** The map trackIP keeps: the visit is recorded and whatever has expired is deleted. */
  function Track(ips: map<string, int>, v: Visit): map<string, int>
  {
    Prune(ips[v.subnet := v.at], v.at - WINDOW)
  }

  function TrackAll(visits: seq<Visit>): map<string, int>
  {
    if visits == [] then map[] else Track(TrackAll(visits[..|visits| - 1]), visits[|visits| - 1])
  }

  ghost predicate InOrder(visits: seq<Visit>)
  {
    forall i, j | 0 <= i <= j < |visits| :: visits[i].at <= visits[j].at
  }

  /** The subnets seen since the cutoff, from the full history. */
  ghost function SeenSince(visits: seq<Visit>, cutoff: int): set<string>
  {
    set v | v in visits && v.at >= cutoff :: v.subnet
  }

  /** Every entry is the last visit of its subnet, and every subnet seen since the cutoff has one. */
  ghost predicate LastVisits(visits: seq<Visit>, ips: map<string, int>, cutoff: int)
  {
    && (forall k | k in ips :: ips[k] >= cutoff && Visit(k, ips[k]) in visits)
    && (forall v | v in visits && v.at >= cutoff :: v.subnet in ips && v.at <= ips[v.subnet])
  }

  lemma TrackKeepsLastVisits(visits: seq<Visit>, ips: map<string, int>, cutoff: int, v: Visit)
    requires LastVisits(visits, ips, cutoff) && cutoff <= v.at - WINDOW
    requires forall u | u in visits :: u.at <= v.at
    ensures LastVisits(visits + [v], Track(ips, v), v.at - WINDOW)
  {
  }

  lemma {:induction false} EntriesAreLastVisits(visits: seq<Visit>)
    requires InOrder(visits) && visits != []
    ensures LastVisits(visits, TrackAll(visits), visits[|visits| - 1].at - WINDOW)
  {
    var n := |visits| - 1;
    var v := visits[n];
    assert visits[..n] + [v] == visits;
    if n == 0 {
      assert TrackAll(visits[..n]) == map[];
      TrackKeepsLastVisits(visits[..n], map[], v.at - WINDOW, v);
    } else {
      EntriesAreLastVisits(visits[..n]);
      assert visits[n - 1].at <= v.at;
      TrackKeepsLastVisits(visits[..n], TrackAll(visits[..n]), visits[n - 1].at - WINDOW, v);
    }
  }

  /** Although expired entries have been deleted along the way, the size trackIP returns is the number of
      distinct subnets in the window over all visits so far. */
  lemma PrunedMapCountsHistory(visits: seq<Visit>)
    requires InOrder(visits) && visits != []
    ensures TrackAll(visits).Keys == SeenSince(visits, visits[|visits| - 1].at - WINDOW)
    ensures |TrackAll(visits)| == |SeenSince(visits, visits[|visits| - 1].at - WINDOW)|
  {
    EntriesAreLastVisits(visits);
    var ips, seen := TrackAll(visits), SeenSince(visits, visits[|visits| - 1].at - WINDOW);
    forall k | k in ips ensures k in seen {
      assert Visit(k, ips[k]) in visits;
    }
    assert ips.Keys == seen;
  }
}
