// The counters of one session, as both the interleaved and the atomic model of the limiter use them.
module SessionState {
  import opened Basics

  /** Zero or less means unlimited. */
  datatype Limits = Limits(maxPerPath: int, maxBig: int, maxTotal: int, maxIPs: int)

  /** The sessionState object: conc by path key, big by info hash and path. Absent entries count as 0. */
  datatype Session = Session(total: int, conc: map<string, int>, big: map<string, map<string, int>>)

  const EMPTY := Session(0, map[], map[])

  function PathKey(infoHash: string, path: string): string { infoHash + "|" + path }

  function At<K>(m: map<K, int>, k: K): int { if k in m then m[k] else 0 }

  function Conc(s: Session, key: string): int { At(s.conc, key) }

  function ActiveBig(s: Session, infoHash: string): map<string, int>
  {
    if infoHash in s.big then s.big[infoHash] else map[]
  }

  function Big(s: Session, infoHash: string, path: string): int { At(ActiveBig(s, infoHash), path) }

  predicate Full(limit: int, used: int) { limit > 0 && used >= limit }

  predicate BigFull(l: Limits, s: Session, infoHash: string, path: string)
  {
    path !in ActiveBig(s, infoHash) && Full(l.maxBig, |ActiveBig(s, infoHash)|)
  }

  function AddTotal(s: Session, d: int): Session { s.(total := s.total + d) }

  function AddConc(s: Session, key: string, d: int): (t: Session)
    ensures t.total == s.total && t.big == s.big
  {
    s.(conc := s.conc[key := Conc(s, key) + d])
  }

  function AddBig(s: Session, infoHash: string, path: string): (t: Session)
    ensures t.total == s.total && t.conc == s.conc
  {
    s.(big := s.big[infoHash := ActiveBig(s, infoHash)[path := Big(s, infoHash, path) + 1]])
  }

  /** The path leaves the active set with its last request. */
  function DropBig(s: Session, infoHash: string, path: string): (t: Session)
    ensures t.total == s.total && t.conc == s.conc
  {
    var left := Big(s, infoHash, path) - 1;
    var active := ActiveBig(s, infoHash);
    s.(big := s.big[infoHash := if left <= 0 then active - {path} else active[path := left]])
  }

  /** Every path in an active set has a request in flight, and the sets respect the cap on distinct files. */
  ghost predicate BigInRange(l: Limits, s: Session)
  {
    forall h | h in s.big ::
      && (forall p | p in s.big[h] :: s.big[h][p] >= 1)
      && (l.maxBig > 0 ==> |s.big[h]| <= l.maxBig)
  }

  lemma AddBigCounts(s: Session, infoHash: string, path: string, h: string, p: string)
    ensures Big(AddBig(s, infoHash, path), h, p) == Big(s, h, p) + if h == infoHash && p == path then 1 else 0
  {
  }

  lemma DropBigCounts(s: Session, infoHash: string, path: string, h: string, p: string)
    requires Big(s, infoHash, path) >= 1
    ensures Big(DropBig(s, infoHash, path), h, p) == Big(s, h, p) - if h == infoHash && p == path then 1 else 0
  {
  }

  lemma AddBigInRange(l: Limits, s: Session, infoHash: string, path: string)
    requires BigInRange(l, s) && !BigFull(l, s, infoHash, path)
    ensures BigInRange(l, AddBig(s, infoHash, path))
  {
  }

  lemma DropBigInRange(l: Limits, s: Session, infoHash: string, path: string)
    requires BigInRange(l, s) && Big(s, infoHash, path) >= 1
    ensures BigInRange(l, DropBig(s, infoHash, path))
  {
  }

  /** A reservation that is undone leaves the counters as they were. */
  lemma AddThenDrop(l: Limits, s: Session, infoHash: string, path: string)
    requires BigInRange(l, s)
    ensures ActiveBig(DropBig(AddBig(s, infoHash, path), infoHash, path), infoHash) == ActiveBig(s, infoHash)
    ensures forall h | h != infoHash ::
      ActiveBig(DropBig(AddBig(s, infoHash, path), infoHash, path), h) == ActiveBig(s, h)
  {
  }

  // ---------------------------------------------------------------- whole calls

  datatype Verdict = Admitted | RejectedTotal | RejectedBig | RejectedPath | RejectedIPs

  /** What Acquire answers on the counters it finds; ips is the distinct-subnet count after this request. */
  function Decide(l: Limits, s: Session, infoHash: string, path: string, big: bool, ips: int): Verdict
  {
    if Full(l.maxTotal, s.total) then RejectedTotal else DecideRest(l, s, infoHash, path, big, ips)
  }

  function DecideRest(l: Limits, s: Session, infoHash: string, path: string, big: bool, ips: int): (v: Verdict)
    ensures !v.RejectedTotal?
  {
    if big && BigFull(l, s, infoHash, path) then RejectedBig
    else if Full(l.maxPerPath, Conc(s, PathKey(infoHash, path))) then RejectedPath
    else if l.maxIPs > 0 && ips > l.maxIPs then RejectedIPs
    else Admitted
  }

  /** Room for one more request: in all, for one more distinct big file, and on the path. */
  predicate TotalLeft(l: Limits, s: Session) { l.maxTotal <= 0 || s.total < l.maxTotal }

  predicate FileLeft(l: Limits, s: Session, infoHash: string, path: string, big: bool)
  {
    !big || l.maxBig <= 0 || path in ActiveBig(s, infoHash) || |ActiveBig(s, infoHash)| < l.maxBig
  }

  predicate PathLeft(l: Limits, s: Session, infoHash: string, path: string)
  {
    l.maxPerPath <= 0 || Conc(s, infoHash + "|" + path) < l.maxPerPath
  }

  predicate HasRoom(l: Limits, s: Session, infoHash: string, path: string, big: bool)
  {
    TotalLeft(l, s) && FileLeft(l, s, infoHash, path, big) && PathLeft(l, s, infoHash, path)
  }

  /** The first limit that leaves no room decides, in the order total, big files, path, client subnets. */
  lemma VerdictIs(l: Limits, s: Session, infoHash: string, path: string, big: bool, ips: int)
    ensures var v, file := Decide(l, s, infoHash, path, big, ips), FileLeft(l, s, infoHash, path, big);
      && (v == RejectedTotal <==> !TotalLeft(l, s))
      && (v == RejectedBig <==> TotalLeft(l, s) && !file)
      && (v == RejectedPath <==> TotalLeft(l, s) && file && !PathLeft(l, s, infoHash, path))
      && (v == RejectedIPs <==> HasRoom(l, s, infoHash, path, big) && 0 < l.maxIPs < ips)
      && (v == Admitted <==> HasRoom(l, s, infoHash, path, big) && (l.maxIPs <= 0 || ips <= l.maxIPs))
  {
  }

  function Reserve(s: Session, infoHash: string, path: string, big: bool): Session
  {
    if big then AddBig(s, infoHash, path) else s
  }

  function Unreserve(s: Session, infoHash: string, path: string, big: bool): Session
  {
    if big then DropBig(s, infoHash, path) else s
  }

  function Admit(s: Session, infoHash: string, path: string, big: bool): Session
  {
    AddConc(AddTotal(Reserve(s, infoHash, path, big), 1), PathKey(infoHash, path), 1)
  }

  function Leave(s: Session, infoHash: string, path: string, big: bool): Session
  {
    AddTotal(Unreserve(AddConc(s, PathKey(infoHash, path), -1), infoHash, path, big), -1)
  }

  /** The counters after Acquire: a rejection after the big-file check undoes the reservation. */
  function AfterAcquire(s: Session, v: Verdict, infoHash: string, path: string, big: bool): Session
  {
    match v
    case Admitted => Admit(s, infoHash, path, big)
    case RejectedPath => Unreserve(Reserve(s, infoHash, path, big), infoHash, path, big)
    case RejectedIPs => Unreserve(Reserve(s, infoHash, path, big), infoHash, path, big)
    case _ => s
  }

  ghost predicate SameCounters(s: Session, t: Session)
  {
    && t.total == s.total
    && (forall key :: Conc(t, key) == Conc(s, key))
    && (forall h :: ActiveBig(t, h) == ActiveBig(s, h))
  }

  /** A rejected Acquire leaves every counter and every active set as it found them. */
  lemma RejectionChangesNothing(l: Limits, s: Session, v: Verdict, infoHash: string, path: string, big: bool)
    requires BigInRange(l, s) && v != Admitted
    ensures SameCounters(s, AfterAcquire(s, v, infoHash, path, big))
  {
  }

  /** Releasing an admitted request restores the counters it found. */
  lemma LeaveUndoesAdmit(l: Limits, s: Session, infoHash: string, path: string, big: bool)
    requires BigInRange(l, s)
    ensures SameCounters(s, Leave(Admit(s, infoHash, path, big), infoHash, path, big))
  {
    AddThenDrop(l, s, infoHash, path);
    hide BigInRange;
    var key := PathKey(infoHash, path);
    var t := Leave(Admit(s, infoHash, path, big), infoHash, path, big);
    forall h ensures ActiveBig(t, h) == ActiveBig(s, h) {
      var u := DropBig(AddBig(s, infoHash, path), infoHash, path);
      assert big ==> ActiveBig(t, h) == ActiveBig(u, h);
    }
  }
}
