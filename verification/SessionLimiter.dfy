// The session limiter with every Acquire and every release taking place without interruption.
module SessionLimiter {
  import opened Basics
  import opened SessionState
  import opened IpWindow

  /** The deletions of trackIP. */
  method PruneExpired(ips: map<string, int>, cutoff: int) returns (left: map<string, int>)
    ensures left == Prune(ips, cutoff)
  {
    left := ips;
    var todo := ips.Keys;
    while todo != {}
      invariant todo <= ips.Keys
      invariant left == map k | k in ips && (k in todo || ips[k] >= cutoff) :: ips[k]
      decreases todo
    {
      var k :| k in todo;
      todo := todo - {k};
      if left[k] < cutoff {
        left := left - {k};
      }
    }
  }

  ghost predicate Follows(ips: map<string, int>, visits: seq<Visit>, clock: int)
  {
    visits != [] && InOrder(visits) && visits[|visits| - 1].at <= clock && ips == TrackAll(visits)
  }

  ghost predicate AllFollow(ips: map<string, map<string, int>>, visits: map<string, seq<Visit>>, clock: int)
  {
    ips.Keys == visits.Keys && forall key | key in visits :: Follows(ips[key], visits[key], clock)
  }

  lemma VisitKeepsOthers(ips: map<string, map<string, int>>, visits: map<string, seq<Visit>>, clock: int,
                         key: string, m: map<string, int>, h: seq<Visit>, now: int)
    requires AllFollow(ips, visits, clock) && clock <= now && Follows(m, h, now)
    ensures AllFollow(ips[key := m], visits[key := h], now)
  {
  }

  lemma NextVisit(ips: map<string, int>, visits: seq<Visit>, clock: int, v: Visit)
    requires (visits == [] && ips == map[]) || Follows(ips, visits, clock)
    requires clock <= v.at
    ensures Follows(Track(ips, v), visits + [v], v.at)
    ensures |Track(ips, v)| == |SeenSince(visits + [v], v.at - WINDOW)|
  {
    assert (visits + [v])[..|visits|] == visits;
    assert TrackAll(visits) == ips;
    PrunedMapCountsHistory(visits + [v]);
  }

  /** sessionState with its path and hash states folded in, by path key and info hash. */
  class SessionObject {
    var total: int
    var conc: map<string, int>
    var big: map<string, map<string, int>>
    var ips: map<string, map<string, int>>
    ghost var visits: map<string, seq<Visit>>

    constructor ()
      ensures View() == EMPTY && ips == map[] && visits == map[]
      ensures forall clock: int :: Tracked(clock)
    {
      total, conc, big, ips, visits := 0, map[], map[], map[], map[];
    }

    function View(): Session
      reads this
    {
      Session(total, conc, big)
    }

    /** The IP maps are what the path's visits so far leave in them. */
    ghost predicate Tracked(clock: int)
      reads this`ips, this`visits
    {
      AllFollow(ips, visits, clock)
    }

    lemma Later(clock: int, now: int)
      requires Tracked(clock) && clock <= now
      ensures Tracked(now)
    {
    }

    /** Reserves a big-file slot unless this would be one distinct file too many. */
    method TryAddBig(infoHash: string, path: string, limits: Limits) returns (ok: bool)
      modifies this`big
      ensures ok == !BigFull(limits, old(View()), infoHash, path)
      ensures View() == if ok then AddBig(old(View()), infoHash, path) else old(View())
    {
      var active := if infoHash in big then big[infoHash] else map[];
      if path !in active {
        if limits.maxBig > 0 && |active| >= limits.maxBig {
          return false;
        }
      }
      active := active[path := (if path in active then active[path] else 0) + 1];
      big := big[infoHash := active];
      ok := true;
    }

    method ReleaseBig(infoHash: string, path: string)
      modifies this`big
      ensures View() == SessionState.DropBig(old(View()), infoHash, path)
    {
      var active := if infoHash in big then big[infoHash] else map[];
      var left := (if path in active then active[path] else 0) - 1;
      active := active[path := left];
      if active[path] <= 0 {
        active := active - {path};
      }
      big := big[infoHash := active];
      assert left <= 0 ==> active == ActiveBig(old(View()), infoHash) - {path};
    }

    method AddRequest(key: string, d: int)
      modifies this`total, this`conc
      ensures View() == AddConc(AddTotal(old(View()), d), key, d)
    {
      total := total + d;
      conc := conc[key := (if key in conc then conc[key] else 0) + d];
    }

    /** What the release closure does to the counters. */
    method Leave(infoHash: string, path: string, big: bool)
      modifies this`total, this`conc, this`big
      ensures View() == SessionState.Leave(old(View()), infoHash, path, big)
    {
      var key := PathKey(infoHash, path);
      conc := conc[key := (if key in conc then conc[key] else 0) - 1];
      if big {
        ReleaseBig(infoHash, path);
      }
      total := total - 1;
    }

    /** Records the visit, deletes what has expired, and returns how many subnets are left: the number of
        distinct subnets among all visits to the path within the window. */
    method TrackIP(key: string, subnet: string, now: int, ghost clock: int) returns (n: nat)
      requires Tracked(clock) && clock <= now
      modifies this`ips, this`visits
      ensures Tracked(now)
      ensures visits == old(visits)[key := (if key in old(visits) then old(visits)[key] else []) + [Visit(subnet, now)]]
      ensures n == |SeenSince(visits[key], now - 60_000)|
    {
      hide Follows, SeenSince, Prune;
      var seen := if key in ips then ips[key] else map[];
      seen := seen[subnet := now];
      seen := PruneExpired(seen, now - WINDOW);
      ghost var before := if key in visits then visits[key] else [];
      ghost var after := before + [Visit(subnet, now)];
      NextVisit(if key in ips then ips[key] else map[], before, clock, Visit(subnet, now));
      VisitKeepsOthers(ips, visits, clock, key, seen, after, now);
      ips := ips[key := seen];
      visits := visits[key := after];
      n := |seen|;
    }
  }

  // ---------------------------------------------------------------- who is live

  /** The closure Acquire returns: what it holds and on which object. */
  datatype Lease = Lease(obj: SessionObject, id: string, infoHash: string, path: string, big: bool)

  ghost function OfSession(id: string): Lease -> bool { (x: Lease) => x.id == id }

  ghost function OfPath(id: string, key: string): Lease -> bool
  {
    (x: Lease) => x.id == id && PathKey(x.infoHash, x.path) == key
  }

  ghost function OfBigFile(id: string, infoHash: string, path: string): Lease -> bool
  {
    (x: Lease) => x.id == id && x.big && x.infoHash == infoHash && x.path == path
  }

  /** The counters of a session count its live requests. */
  ghost predicate Counts(v: Session, live: seq<Lease>, id: string)
  {
    && v.total == Count(live, OfSession(id))
    && (forall key :: Conc(v, key) == Count(live, OfPath(id, key)))
    && (forall h, p :: Big(v, h, p) == Count(live, OfBigFile(id, h, p)))
  }

  ghost predicate WithinCaps(l: Limits, v: Session)
  {
    && BigInRange(l, v)
    && (l.maxTotal > 0 ==> v.total <= l.maxTotal)
    && (l.maxPerPath > 0 ==> forall key :: Conc(v, key) <= l.maxPerPath)
  }

  ghost predicate Sound(l: Limits, v: Session, live: seq<Lease>, id: string)
  {
    Counts(v, live, id) && WithinCaps(l, v)
  }

  lemma NobodyLive(l: Limits, live: seq<Lease>, id: string)
    requires forall x | x in live :: x.id != id
    ensures Sound(l, EMPTY, live, id)
  {
    CountPositive(live, OfSession(id));
    forall key ensures Count(live, OfPath(id, key)) == 0 { CountPositive(live, OfPath(id, key)); }
    forall h, p ensures Count(live, OfBigFile(id, h, p)) == 0 { CountPositive(live, OfBigFile(id, h, p)); }
  }

  lemma AdmitCounts(v: Session, live: seq<Lease>, x: Lease)
    requires Counts(v, live, x.id)
    ensures Counts(Admit(v, x.infoHash, x.path, x.big), live + [x], x.id)
  {
  }

  lemma AdmitSound(l: Limits, v: Session, live: seq<Lease>, x: Lease, ips: int)
    requires Sound(l, v, live, x.id) && Decide(l, v, x.infoHash, x.path, x.big, ips) == Admitted
    ensures Sound(l, Admit(v, x.infoHash, x.path, x.big), live + [x], x.id)
    ensures Admit(v, x.infoHash, x.path, x.big).total >= 1
  {
    AdmitCounts(v, live, x);
    if x.big {
      AddBigInRange(l, v, x.infoHash, x.path);
    }
  }

  function Without<T>(s: seq<T>, k: nat): seq<T>
    requires k < |s|
  {
    s[..k] + s[k + 1..]
  }

  lemma LeaveCounts(v: Session, live: seq<Lease>, k: nat)
    requires k < |live| && Counts(v, live, live[k].id)
    ensures var x := live[k]; Counts(Leave(v, x.infoHash, x.path, x.big), Without(live, k), x.id)
  {
    var x := live[k];
    var t, rest := Leave(v, x.infoHash, x.path, x.big), Without(live, k);
    var w := AddConc(v, PathKey(x.infoHash, x.path), -1);
    CountRemove(live, OfSession(x.id), k);
    forall key ensures Conc(t, key) == Count(rest, OfPath(x.id, key)) { CountRemove(live, OfPath(x.id, key), k); }
    HeldBig(v, live, k);
    forall h, p ensures Big(t, h, p) == Count(rest, OfBigFile(x.id, h, p)) {
      CountRemove(live, OfBigFile(x.id, h, p), k);
      if x.big { DropBigCounts(w, x.infoHash, x.path, h, p); }
    }
  }

  lemma HeldBig(v: Session, live: seq<Lease>, k: nat)
    requires k < |live| && Counts(v, live, live[k].id)
    ensures var x := live[k]; x.big ==> Big(v, x.infoHash, x.path) >= 1
  {
    var x := live[k];
    assert x in live;
    CountPositive(live, OfBigFile(x.id, x.infoHash, x.path));
  }

  lemma LeaveSound(l: Limits, v: Session, live: seq<Lease>, k: nat)
    requires k < |live| && Sound(l, v, live, live[k].id)
    ensures var x := live[k]; Sound(l, Leave(v, x.infoHash, x.path, x.big), Without(live, k), x.id)
  {
    var x := live[k];
    LeaveCounts(v, live, k);
    HeldBig(v, live, k);
    var w := AddConc(v, PathKey(x.infoHash, x.path), -1);
    if x.big { DropBigInRange(l, w, x.infoHash, x.path); }
  }

  lemma OthersRemove(l: Limits, v: Session, live: seq<Lease>, id: string, k: nat)
    requires Sound(l, v, live, id) && k < |live| && live[k].id != id
    ensures Sound(l, v, Without(live, k), id)
  {
    var rest := Without(live, k);
    CountRemove(live, OfSession(id), k);
    forall key ensures Conc(v, key) == Count(rest, OfPath(id, key)) { CountRemove(live, OfPath(id, key), k); }
    forall h, p ensures Big(v, h, p) == Count(rest, OfBigFile(id, h, p)) {
      CountRemove(live, OfBigFile(id, h, p), k);
    }
  }

  /** Why Acquire answers as it does, for a session with the counters v and a path whose visits, with this one, are
      seen: each rejection if and only if its limit leaves no room and the ones before it do. */
  ghost predicate Justified(l: Limits, v: Session, infoHash: string, path: string, subnet: string, big: bool,
                            verdict: Verdict, seen: seq<Visit>, now: int)
  {
    var tooMany := l.maxIPs > 0 && subnet != "" && |SeenSince(seen, now - 60_000)| > l.maxIPs;
    && (verdict == RejectedTotal <==> !TotalLeft(l, v))
    && (verdict == RejectedBig <==> TotalLeft(l, v) && !FileLeft(l, v, infoHash, path, big))
    && (verdict == RejectedPath <==>
          TotalLeft(l, v) && FileLeft(l, v, infoHash, path, big) && !PathLeft(l, v, infoHash, path))
    && (verdict == RejectedIPs <==> HasRoom(l, v, infoHash, path, big) && tooMany)
    && (verdict == Admitted <==> HasRoom(l, v, infoHash, path, big) && !tooMany)
  }

  // ---------------------------------------------------------------- the limiter

  class SessionLimiter {
    const limits: Limits
    var sessions: map<string, SessionObject>
    var clock: int
    ghost var live: seq<Lease>

    constructor (limits: Limits)
      ensures Valid() && this.limits == limits && sessions == map[] && live == [] && clock == 0
    {
      this.limits, sessions, clock, live := limits, map[], 0, [];
    }

    /** sessions holds exactly the sessions with a live request, each with its own object, whose counters
        count those requests and keep every cap. */
    ghost predicate Valid()
      reads this, sessions.Values
    {
      && (forall a, b | a in sessions && b in sessions && a != b :: sessions[a] != sessions[b])
      && (forall id | id in sessions :: sessions[id].total >= 1 && sessions[id].Tracked(clock))
      && (forall id | id in sessions :: Sound(limits, sessions[id].View(), live, id))
      && (forall x | x in live :: x.id in sessions && sessions[x.id] == x.obj)
    }

    function Current(id: string): Session
      reads this, sessions.Values
    {
      if id in sessions then sessions[id].View() else EMPTY
    }

    ghost function Visits(id: string, key: string): seq<Visit>
      reads this, sessions.Values
    {
      if id in sessions && key in sessions[id].visits then sessions[id].visits[key] else []
    }

    /** getSession. */
    method GetSession(id: string) returns (s: SessionObject)
      requires Valid()
      modifies this`sessions
      ensures id in sessions && sessions[id] == s
      ensures if id in old(sessions) then sessions == old(sessions)
              else fresh(s) && sessions == old(sessions)[id := s] && s.View() == EMPTY
                   && s.visits == map[] && s.Tracked(clock)
    {
      if id !in sessions {
        s := new SessionObject();
        sessions := sessions[id := s];
      }
      s := sessions[id];
    }

    /** Whether a request's client counts as a visitor of its path: the other limits leave it room. */
    predicate Counted(subnet: string, v: Session, infoHash: string, path: string, big: bool)
    {
      limits.maxIPs > 0 && subnet != "" && HasRoom(limits, v, infoHash, path, big)
    }

    /** The checks of Acquire on the session's object, up to the point of commitment; a rejection has
        undone its reservation. ips is the distinct-subnet count if it was taken. */
    method Check(s: SessionObject, infoHash: string, path: string, subnet: string, big: bool, now: int,
        ghost clock: int)
      returns (verdict: Verdict, ghost ips: nat)
      requires s.Tracked(clock) && clock <= now && BigInRange(limits, s.View())
      modifies s`big, s`ips, s`visits
      ensures s.Tracked(now)
      ensures verdict == Decide(limits, old(s.View()), infoHash, path, big, ips)
      ensures verdict == Admitted ==> s.View() == Reserve(old(s.View()), infoHash, path, big)
      ensures verdict != Admitted ==> s.View() == AfterAcquire(old(s.View()), verdict, infoHash, path, big)
      ensures var key := PathKey(infoHash, path);
        var before := if key in old(s.visits) then old(s.visits)[key] else [];
        if limits.maxIPs > 0 && subnet != "" && (verdict == Admitted || verdict == RejectedIPs)
        then s.visits == old(s.visits)[key := before + [Visit(subnet, now)]]
             && ips == |SeenSince(before + [Visit(subnet, now)], now - WINDOW)|
        else s.visits == old(s.visits) && ips == 0
    {
      hide AddBig, DropBig, BigFull, SeenSince, AllFollow, BigInRange;
      ips := 0;
      s.Later(clock, now);
      if limits.maxTotal > 0 && s.total >= limits.maxTotal {
        return RejectedTotal, 0;
      }
      if big {
        var ok := s.TryAddBig(infoHash, path, limits);
        if !ok {
          return RejectedBig, 0;
        }
      }
      var key := PathKey(infoHash, path);
      if limits.maxPerPath > 0 && Conc(s.View(), key) >= limits.maxPerPath {
        if big { s.ReleaseBig(infoHash, path); }
        return RejectedPath, 0;
      }
      if limits.maxIPs > 0 && subnet != "" {
        var n := s.TrackIP(key, subnet, now, clock);
        ips := n;
        if n > limits.maxIPs {
          if big { s.ReleaseBig(infoHash, path); }
          return RejectedIPs, n;
        }
      }
      verdict := Admitted;
    }

    lemma CurrentSound(id: string)
      requires Valid()
      ensures Sound(limits, Current(id), live, id)
    {
      if id !in sessions {
        NobodyLive(limits, live, id);
      }
    }

    /** Valid, but for what the object of one session counts. */
    ghost predicate ValidBut(id: string)
      reads this, sessions.Values
    {
      && id in sessions
      && (forall a, b | a in sessions && b in sessions && a != b :: sessions[a] != sessions[b])
      && (forall k | k in sessions :: sessions[k].Tracked(clock))
      && (forall k | k in sessions && k != id ::
            sessions[k].total >= 1 && Sound(limits, sessions[k].View(), live, k))
      && (forall x | x in live :: x.id in sessions && sessions[x.id] == x.obj)
    }

    lemma Rejoin(id: string)
      requires ValidBut(id) && sessions[id].total >= 1 && Sound(limits, Current(id), live, id)
      ensures Valid()
    {
    }

    /** Brings the clock up to date and finds or makes the session's object. */
    method Open(id: string, now: int) returns (s: SessionObject)
      requires Valid() && clock <= now
      modifies this`clock, this`sessions
      ensures ValidBut(id) && clock == now && id in sessions && sessions[id] == s
      ensures Current(id) == old(Current(id)) && Sound(limits, Current(id), live, id) && BigInRange(limits, Current(id))
      ensures if id in old(sessions) then sessions == old(sessions) else fresh(s) && sessions == old(sessions)[id := s]
      ensures id !in old(sessions) ==> s.visits == map[]
      ensures id in old(sessions) ==> s.total >= 1
    {
      hide Sound, AllFollow, SessionObject.Tracked, BigInRange, SeenSince, PathKey;
      CurrentSound(id);
      SoundInRange(limits, Current(id), live, id);
      ToNow(now);
      s := GetSession(id);
    }

    /** The checks, on the object of a session that has one. */
    method CheckSession(id: string, infoHash: string, path: string, subnet: string, big: bool, now: int)
      returns (verdict: Verdict, ghost ips: nat)
      requires ValidBut(id) && clock == now && BigInRange(limits, Current(id))
      modifies sessions[id]
      ensures ValidBut(id)
      ensures forall k | k in sessions && k != id :: Current(k) == old(Current(k))
      ensures sessions[id].total == old(sessions[id].total)
      ensures verdict == Decide(limits, old(Current(id)), infoHash, path, big, ips)
      ensures verdict == Admitted ==> Current(id) == Reserve(old(Current(id)), infoHash, path, big)
      ensures verdict != Admitted ==> Current(id) == AfterAcquire(old(Current(id)), verdict, infoHash, path, big)
      ensures var counted := Counted(subnet, old(Current(id)), infoHash, path, big);
        && Visits(id, PathKey(infoHash, path)) == old(Visits(id, PathKey(infoHash, path)))
                                                 + (if counted then [Visit(subnet, now)] else [])
        && ips == if counted then |SeenSince(Visits(id, PathKey(infoHash, path)), now - WINDOW)| else 0
      ensures old(sessions[id].visits) == map[] ==> ips <= 1
    {
      hide Sound, AllFollow, SessionObject.Tracked, BigInRange, SeenSince, PathKey, Decide, Reserve, AfterAcquire;
      hide HasRoom;
      ghost var found := Current(id);
      verdict, ips := Check(sessions[id], infoHash, path, subnet, big, now, clock);
      VerdictIs(limits, found, infoHash, path, big, ips);
      LoneVisit(Visit(subnet, now));
      assert forall k | k in sessions && k != id :: unchanged(sessions[k]);
    }

    /** The commitment: the request counts from here on. */
    method Commit(id: string, infoHash: string, path: string, big: bool, ghost current: Session, ghost ips: int)
      returns (x: Lease)
      requires ValidBut(id) && Sound(limits, current, live, id)
      requires Decide(limits, current, infoHash, path, big, ips) == Admitted
      requires Current(id) == Reserve(current, infoHash, path, big)
      modifies this`live, sessions[id]
      ensures Valid() && clock == old(clock)
      ensures x == Lease(sessions[id], id, infoHash, path, big) && live == old(live) + [x]
      ensures Current(id) == Admit(current, infoHash, path, big)
      ensures forall k | k in sessions && k != id :: Current(k) == old(Current(k))
      ensures sessions[id].visits == old(sessions[id].visits)
    {
      hide Sound, AllFollow, SessionObject.Tracked, BigInRange, SeenSince, PathKey, Decide, Reserve, AddConc, AddTotal;
      var s := sessions[id];
      x := Lease(s, id, infoHash, path, big);
      OthersSoundWith(id, x);
      AdmitSound(limits, current, live, x, ips);
      label before:
      s.AddRequest(PathKey(infoHash, path), 1);
      assert forall k | k in sessions && k != id :: unchanged@before(sessions[k]);
      live := live + [x];
    }

    lemma OthersSoundWith(id: string, x: Lease)
      requires ValidBut(id) && x.id == id
      ensures forall k | k in sessions && k != id :: Sound(limits, sessions[k].View(), live + [x], k)
    {
    }

    /** Acquire for a session. A session nobody uses yet is always admitted. */
    method AcquireSession(id: string, infoHash: string, path: string, subnet: string, big: bool, now: int)
      returns (release: Option<Lease>, verdict: Verdict, ghost ips: nat)
      requires Valid() && clock <= now
      modifies this, sessions.Values
      ensures Valid() && clock == now && fresh(sessions.Values - old(sessions.Values))
      ensures verdict == Decide(limits, old(Current(id)), infoHash, path, big, ips)
      ensures Current(id) == AfterAcquire(old(Current(id)), verdict, infoHash, path, big)
      ensures verdict != Admitted ==> SameCounters(old(Current(id)), Current(id))
      ensures sessions.Keys == old(sessions.Keys) + {id} && (id !in old(sessions) ==> verdict == Admitted)
      ensures forall k | k in old(sessions) && k != id :: Current(k) == old(Current(k))
      ensures release == if verdict == Admitted then Some(Lease(sessions[id], id, infoHash, path, big)) else None
      ensures live == if release.Some? then old(live) + [release.value] else old(live)
      ensures var counted := Counted(subnet, old(Current(id)), infoHash, path, big);
        && Visits(id, PathKey(infoHash, path)) == old(Visits(id, PathKey(infoHash, path)))
                                                 + (if counted then [Visit(subnet, now)] else [])
        && ips == if counted then |SeenSince(Visits(id, PathKey(infoHash, path)), now - WINDOW)| else 0
    {
      hide Sound, AllFollow, SessionObject.Tracked, BigInRange, SeenSince, PathKey;
      hide Decide, AfterAcquire, Reserve, SameCounters, Admit, Valid, ValidBut;
      ghost var current := Current(id);
      var s := Open(id, now);
      verdict, ips := CheckSession(id, infoHash, path, subnet, big, now);
      if verdict == Admitted {
        AfterAdmission(current, infoHash, path, big);
        var x := Commit(id, infoHash, path, big, current, ips);
        release := Some(x);
      } else {
        FreshIsAdmitted(limits, infoHash, path, big, ips);
        RejectedSound(limits, current, live, id, verdict, infoHash, path, big, ips);
        Rejoin(id);
        release := None;
      }
    }

    /** Admits or rejects a request; an empty session ID is not limited at all. A rejection leaves every
        counter and the table of sessions as they were. */
    method Acquire(id: string, infoHash: string, path: string, subnet: string, big: bool, now: int)
      returns (release: Option<Lease>, verdict: Verdict, ghost ips: nat)
      requires Valid() && clock <= now
      modifies this, sessions.Values
      ensures Valid() && clock == now && fresh(sessions.Values - old(sessions.Values))
      ensures verdict == if id == "" then Admitted else Decide(limits, old(Current(id)), infoHash, path, big, ips)
      ensures id == "" ==> sessions == old(sessions)
      ensures id != "" ==> Current(id) == AfterAcquire(old(Current(id)), verdict, infoHash, path, big)
      ensures id != "" ==> sessions.Keys == old(sessions.Keys) + {id}
      ensures forall k | k in old(sessions) && k != id :: Current(k) == old(Current(k))
      ensures id !in old(sessions) ==> verdict == Admitted
      ensures verdict != Admitted ==> SameCounters(old(Current(id)), Current(id))
      ensures release.Some? <==> id != "" && verdict == Admitted
      ensures release.Some? ==> release.value == Lease(sessions[id], id, infoHash, path, big)
      ensures live == if release.Some? then old(live) + [release.value] else old(live)
      ensures ips > 0 ==> ips == |SeenSince(Visits(id, PathKey(infoHash, path)), now - 60_000)|
      ensures id != "" ==> Justified(limits, old(Current(id)), infoHash, path, subnet, big, verdict,
                                     old(Visits(id, PathKey(infoHash, path))) + [Visit(subnet, now)], now)
      ensures verdict == Admitted && id != "" && limits.maxIPs > 0 && subnet != "" ==>
        |SeenSince(Visits(id, PathKey(infoHash, path)), now - 60_000)| <= limits.maxIPs
    {
      hide Valid, Decide, AfterAcquire, SameCounters, SeenSince, Visits;
      if id == "" {
        ToNow(now);
        return None, Admitted, 0;
      }
      ghost var found := Current(id);
      release, verdict, ips := AcquireSession(id, infoHash, path, subnet, big, now);
      VerdictIs(limits, found, infoHash, path, big, ips);
    }

    lemma LeaveAll(k: nat)
      requires Valid() && k < |live|
      ensures forall id | id in sessions && id != live[k].id ::
        Sound(limits, sessions[id].View(), Without(live, k), id)
      ensures live[k].id in sessions && sessions[live[k].id] == live[k].obj
      ensures var x := live[k];
        Sound(limits, SessionState.Leave(Current(x.id), x.infoHash, x.path, x.big), Without(live, k), x.id)
      ensures var x := live[k]; x.obj.total <= 1 ==> forall y | y in Without(live, k) :: y.id != x.id
    {
      hide SessionObject.Tracked;
      var x := live[k];
      assert x in live;
      LeaveSound(limits, Current(x.id), live, k);
      forall id | id in sessions && id != x.id
        ensures Sound(limits, sessions[id].View(), Without(live, k), id)
      {
        OthersRemove(limits, sessions[id].View(), live, id, k);
      }
      CountPositive(Without(live, k), OfSession(x.id));
    }

    /** The subtractions of the release closure. */
    method Uncount(x: Lease, ghost k: nat)
      requires Valid() && k < |live| && live[k] == x
      modifies this`live, x.obj
      ensures live == Without(old(live), k) && ValidBut(x.id) && sessions[x.id] == x.obj
      ensures Sound(limits, Current(x.id), live, x.id)
      ensures Current(x.id) == SessionState.Leave(old(Current(x.id)), x.infoHash, x.path, x.big)
      ensures x.obj.total == old(x.obj.total) - 1
      ensures x.obj.total <= 0 ==> forall y | y in live :: y.id != x.id
      ensures forall id | id in sessions && id != x.id :: Current(id) == old(Current(id))
    {
      hide Sound, AllFollow, SessionObject.Tracked, BigInRange, PathKey, SessionState.Leave;
      LeaveAll(k);
      LeaveTotal(Current(x.id), x.infoHash, x.path, x.big);
      ghost var rest := Without(live, k);
      assert forall y | y in rest :: y in live;
      label before:
      x.obj.Leave(x.infoHash, x.path, x.big);
      assert forall id | id in sessions && id != x.id :: unchanged@before(sessions[id]);
      live := rest;
    }

    /** The release of live request k, once: the counters it holds go down, and with the last request of a
        session the session goes. */
    method Release(x: Lease, ghost k: nat)
      requires Valid() && k < |live| && live[k] == x
      modifies this`sessions, this`live, x.obj
      ensures Valid() && live == Without(old(live), k)
      ensures sessions.Keys == if old(x.obj.total) == 1 then old(sessions.Keys) - {x.id} else old(sessions.Keys)
      ensures x.id in sessions ==>
        Current(x.id) == SessionState.Leave(old(Current(x.id)), x.infoHash, x.path, x.big)
      ensures forall id | id in sessions && id != x.id :: Current(id) == old(Current(id))
    {
      hide Sound, AllFollow, SessionObject.Tracked, BigInRange, PathKey, SessionState.Leave, Without;
      assert x in live;
      Uncount(x, k);
      if x.obj.total <= 0 {
        sessions := sessions - {x.id};
      } else {
        Rejoin(x.id);
      }
    }

    /** The table holds exactly the sessions with at least one live request. */
    lemma SessionsAreLive()
      requires Valid()
      ensures sessions.Keys == set x | x in live :: x.id
    {
      forall id | id in sessions ensures exists x :: x in live && x.id == id {
        assert Sound(limits, sessions[id].View(), live, id);
        CountPositive(live, OfSession(id));
      }
    }

    /** A session's total is the sum over its paths, for any list of keys that has each path in use once. */
    lemma TotalIsSumOfPaths(id: string, keys: seq<string>)
      requires Valid() && id in sessions
      requires forall i, j | 0 <= i < j < |keys| :: keys[i] != keys[j]
      requires forall x | x in live && x.id == id :: PathKey(x.infoHash, x.path) in keys
      ensures sessions[id].total == SumConc(Current(id), keys)
    {
      assert Sound(limits, Current(id), live, id);
      PathsCoverSession(live, id, keys);
      SumConcIsLive(Current(id), live, id, keys);
    }

    method ToNow(now: int)
      requires Valid() && clock <= now
      modifies this`clock
      ensures Valid() && clock == now
    {
      forall id | id in sessions ensures sessions[id].Tracked(now) { sessions[id].Later(clock, now); }
      clock := now;
    }
  }

  lemma LoneVisit(v: Visit)
    ensures |SeenSince([] + [v], v.at - WINDOW)| == 1
  {
    assert SeenSince([] + [v], v.at - WINDOW) == {v.subnet};
  }

  /** A session nobody uses yet cannot be over any cap. */
  lemma FreshIsAdmitted(l: Limits, infoHash: string, path: string, big: bool, ips: int)
    ensures ips <= 1 ==> Decide(l, EMPTY, infoHash, path, big, ips) == Admitted
  {
  }

  lemma SoundInRange(l: Limits, v: Session, live: seq<Lease>, id: string)
    requires Sound(l, v, live, id)
    ensures BigInRange(l, v)
  {
  }

  lemma AfterAdmission(v: Session, infoHash: string, path: string, big: bool)
    ensures AfterAcquire(v, Admitted, infoHash, path, big) == Admit(v, infoHash, path, big)
  {
  }

  lemma RejectedSound(l: Limits, v: Session, live: seq<Lease>, id: string, verdict: Verdict,
                      infoHash: string, path: string, big: bool, ips: int)
    requires Sound(l, v, live, id) && verdict != Admitted && verdict == Decide(l, v, infoHash, path, big, ips)
    ensures var t := AfterAcquire(v, verdict, infoHash, path, big);
      Sound(l, t, live, id) && SameCounters(v, t) && t.total == v.total
  {
    RejectionChangesNothing(l, v, verdict, infoHash, path, big);
    if big && (verdict == RejectedPath || verdict == RejectedIPs) {
      AddBigInRange(l, v, infoHash, path);
      AddBigCounts(v, infoHash, path, infoHash, path);
      BigNotNegative(l, v, infoHash, path);
      DropBigInRange(l, AddBig(v, infoHash, path), infoHash, path);
    }
  }

  lemma BigNotNegative(l: Limits, v: Session, infoHash: string, path: string)
    requires BigInRange(l, v)
    ensures Big(v, infoHash, path) >= 0
  {
  }

  lemma LeaveTotal(v: Session, infoHash: string, path: string, big: bool)
    ensures Leave(v, infoHash, path, big).total == v.total - 1
  {
  }

  // ---------------------------------------------------------------- paths and totals

  function SumConc(v: Session, keys: seq<string>): int
  {
    if keys == [] then 0 else SumConc(v, keys[..|keys| - 1]) + Conc(v, keys[|keys| - 1])
  }

  ghost function LiveOn(live: seq<Lease>, id: string, keys: seq<string>): int
  {
    if keys == [] then 0
    else LiveOn(live, id, keys[..|keys| - 1]) + Count(live, OfPath(id, keys[|keys| - 1]))
  }

  lemma {:induction false} SumConcIsLive(v: Session, live: seq<Lease>, id: string, keys: seq<string>)
    requires Counts(v, live, id)
    ensures SumConc(v, keys) == LiveOn(live, id, keys)
  {
    if keys != [] {
      SumConcIsLive(v, live, id, keys[..|keys| - 1]);
    }
  }

  lemma {:induction false} LiveOnAppend(live: seq<Lease>, x: Lease, id: string, keys: seq<string>)
    requires forall i, j | 0 <= i < j < |keys| :: keys[i] != keys[j]
    ensures LiveOn(live + [x], id, keys)
         == LiveOn(live, id, keys) + if x.id == id && PathKey(x.infoHash, x.path) in keys then 1 else 0
  {
    if keys != [] {
      var n := |keys| - 1;
      LiveOnAppend(live, x, id, keys[..n]);
      CountAppend(live, OfPath(id, keys[n]), x);
      assert forall k | k in keys[..n] :: k != keys[n];
      assert forall k | k in keys :: k in keys[..n] || k == keys[n];
    }
  }

  lemma {:induction false} NobodyOn(id: string, keys: seq<string>)
    ensures LiveOn([], id, keys) == 0
  {
    if keys != [] {
      NobodyOn(id, keys[..|keys| - 1]);
    }
  }

  lemma {:induction false} PathsCoverSession(live: seq<Lease>, id: string, keys: seq<string>)
    requires forall i, j | 0 <= i < j < |keys| :: keys[i] != keys[j]
    requires forall x | x in live && x.id == id :: PathKey(x.infoHash, x.path) in keys
    ensures Count(live, OfSession(id)) == LiveOn(live, id, keys)
  {
    if live == [] {
      NobodyOn(id, keys);
    } else {
      var n := |live| - 1;
      assert live[..n] + [live[n]] == live;
      PathsCoverSession(live[..n], id, keys);
      LiveOnAppend(live[..n], live[n], id, keys);
    }
  }
}
