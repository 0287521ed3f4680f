// Every interleaving of any number of proxies and waiters on one session's bandwidth limit.
//
// A state holds the Redis hash, one HybridBucket per proxy and the goroutines inside Wait. Each step is
// one locked section of Wait, one reading of the clock, one atomic run of the script, one probe event, or
// the passing of time.
module BucketSystem {
  import opened Basics
  import opened TokenScript

  datatype RawParams = RawParams(rate: real, capacity: real)

  /** The pool passes capacity == rate; all that is used here is that an unused key lives long enough
      to earn back a whole burst. */
  type Params = p: RawParams | p.rate >= 0.0 && p.capacity >= 0.0 && p.capacity.Floor <= 300 * p.rate.Floor
    witness RawParams(0.0, 0.0)

  function LimitOf(p: Params): Limit { Limit(p.capacity.Floor, p.rate.Floor) }

  /** The period of a probe's ticker, in seconds. */
  const PROBE_PERIOD := 5.0

  /** rc tells whether the bucket has a Redis client; probes counts its live probe goroutines, probedAt is when the last
      one started; created, accrued and answers are history: when the bucket was made, what local accrual added, and how
      often a probe has found Redis back. */
  datatype Bucket = Bucket(local: real, lastRefill: real, rc: bool, redisOK: bool, probing: bool, probes: nat,
                           probedAt: real, created: real, accrued: real, answers: nat)

  /** Where a goroutine is inside Wait; need is the part of its count still unpaid. */
  datatype Place =
    | Idle
    | Poll(need: real)                    // about to read the clock
    | Sent(need: real, stamp: int)        // has sent the script call with that reading
    | Failed(need: real)                  // the script call returned an error
    | Spawn(need: real)                   // about to start the probe goroutine
    | Replied(need: real, granted: real)  // the script returned granted
    | Check(need: real)                   // about to re-read redisOK
    | Nap(need: real)                     // sleeping before the next poll
    | Drain(need: real, until: real)      // the single degraded sleep before returning

  /** paid, flown, flew and naps are history: what this goroutine released on the credit of degraded sleeps, the
      milliseconds its script calls took from their stamp to their effect, whether such a call has taken effect since
      its last degraded sleep, and how many of those sleeps came after one. */
  datatype Waiter = Waiter(place: Place, bucket: nat, count: nat, paid: real, flown: nat, flew: bool, naps: nat)

  /** ran is when the script last ran. released, granted and lost are history: bytes let through by finished Waits,
      tokens the script granted, and tokens granted in replies that never arrived. */
  datatype Sys = Sys(now: real, start: real, key: Option<Hash>, ran: real, buckets: seq<Bucket>, waiters: seq<Waiter>,
                     released: real, granted: real, lost: real)

  datatype Step =
    | Tick(dt: real)
    | NewBucket(rc: bool)
    | Enter(i: nat, b: nat, count: nat)
    | Stamp(i: nat, nowMs: int)
    | Script(i: nat, expired: bool, lost: bool)
    | CallFails(i: nat)
    | MarkDown(i: nat)
    | StartProbe(i: nat)
    | Settle(i: nat)
    | Recheck(i: nat)
    | Wake(i: nat)
    | Finish(i: nat)
    | ProbeAnswered(b: nat)

  // ---------------------------------------------------------------- the steps

  /** What d seconds are worth. */
  function Credit(p: Params, d: real): real { p.rate * d }

  function RatesOver(p: Params, k: nat, seconds: real): real { k as real * p.rate * seconds }

  function Ms(t: real): int { (t * 1000.0).Floor }

  function SleepFor(p: Params, need: real): real
  {
    if p.rate > 0.0 then need / p.rate else 0.0
  }

  function Refilled(p: Params, b: Bucket, now: real): Bucket
  {
    if (b.redisOK && b.rc) || now <= b.lastRefill then b
    else
      var grown := b.local + Credit(p, now - b.lastRefill);
      var local := if grown > p.capacity then p.capacity else grown;
      b.(local := local, lastRefill := now, accrued := b.accrued + local - b.local)
  }

  function Batch(p: Params, need: real): nat
    requires need > 0.0
  {
    (if p.rate > need then p.rate else need).Floor
  }

  predicate In(s: Sys, i: nat)
  {
    i < |s.waiters| && (s.waiters[i].place.Idle? || s.waiters[i].bucket < |s.buckets|)
  }

  predicate Enabled(p: Params, s: Sys, step: Step)
  {
    match step
    case Tick(dt) => dt >= 0.0
    case NewBucket(_) => true
    case Enter(i, b, count) => In(s, i) && b < |s.buckets| && count > 0 && s.waiters[i].place.Idle?
    case Stamp(i, _) => In(s, i) && s.waiters[i].place.Poll?
    case Script(i, expired, _) =>
      && In(s, i) && s.waiters[i].place.Sent? && s.waiters[i].place.need > 0.0
      && (expired ==> s.key.Some? && s.now - s.ran >= TTL_MS as real / 1000.0)
    case CallFails(i) => In(s, i) && s.waiters[i].place.Sent?
    case MarkDown(i) => In(s, i) && s.waiters[i].place.Failed?
    case StartProbe(i) => In(s, i) && s.waiters[i].place.Spawn?
    case Settle(i) => In(s, i) && s.waiters[i].place.Replied?
    case Recheck(i) => In(s, i) && s.waiters[i].place.Check?
    case Wake(i) => In(s, i) && s.waiters[i].place.Nap?
    case Finish(i) => In(s, i) && s.waiters[i].place.Drain? && s.waiters[i].place.until <= s.now
    case ProbeAnswered(b) =>
      b < |s.buckets| && s.buckets[b].probes > 0 && s.now >= s.buckets[b].probedAt + PROBE_PERIOD
  }

  function Put(s: Sys, i: nat, w: Waiter, bk: Bucket): Sys
    requires i < |s.waiters| && w.bucket < |s.buckets|
  {
    s.(waiters := s.waiters[i := w], buckets := s.buckets[w.bucket := bk])
  }

  function DoEnter(p: Params, s: Sys, i: nat, b: nat, count: nat): Sys
    requires Enabled(p, s, Enter(i, b, count))
  {
    var bk := Refilled(p, s.buckets[b], s.now);
    var w := s.waiters[i].(bucket := b, count := count);
    if bk.local >= count as real then
      Put(s, i, w, bk.(local := bk.local - count as real)).(released := s.released + count as real)
    else
      var need := count as real - bk.local;
      var place := if bk.redisOK && bk.rc then Poll(need) else Drain(need, s.now + SleepFor(p, need));
      Put(s, i, w.(place := place), bk.(local := 0.0))
  }

  /** The key and the call that a script step meets. */
  function KeyMet(s: Sys, expired: bool): Option<Hash> { if expired then None else s.key }

  function CallMade(p: Params, w: Waiter): Call
    requires w.place.Sent? && w.place.need > 0.0
  {
    Call(Batch(p, w.place.need), w.place.stamp)
  }

  function InFlight(s: Sys, stamp: int): nat { if Ms(s.now) > stamp then Ms(s.now) - stamp else 0 }

  function DoScript(p: Params, s: Sys, i: nat, expired: bool, lost: bool): Sys
    requires Enabled(p, s, Script(i, expired, lost))
  {
    var w := s.waiters[i];
    var key, call := KeyMet(s, expired), CallMade(p, w);
    var granted := Granted(LimitOf(p), key, call);
    var place := if lost then Failed(w.place.need) else Replied(w.place.need, granted);
    s.(key := Some(Stored(LimitOf(p), key, call)), ran := s.now,
       waiters := s.waiters[i := w.(place := place, flown := w.flown + InFlight(s, w.place.stamp),
                                          flew := true)],
       granted := s.granted + granted,
       lost := s.lost + if lost then granted else 0.0)
  }

  /** After the degraded sleep. */
  function Rested(w: Waiter): Waiter
    requires w.place.Drain?
  {
    w.(place := Idle, paid := w.paid + w.place.need, flew := false, naps := w.naps + if w.flew then 1 else 0)
  }

  function DoSettle(p: Params, s: Sys, i: nat): Sys
    requires Enabled(p, s, Settle(i))
  {
    var w := s.waiters[i];
    var bk := s.buckets[w.bucket];
    var need, granted := w.place.need, w.place.granted;
    if granted >= need then
      Put(s, i, w.(place := Idle), bk.(local := bk.local + granted - need)).(released := s.released + w.count as real)
    else
      Put(s, i, w.(place := Check(if granted > 0.0 then need - granted else need)), bk)
  }

  function DoMarkDown(s: Sys, i: nat): Sys
    requires In(s, i) && s.waiters[i].place.Failed?
  {
    var w := s.waiters[i];
    var bk := s.buckets[w.bucket];
    var place := if bk.probing then Check(w.place.need) else Spawn(w.place.need);
    Put(s, i, w.(place := place), bk.(redisOK := false, probing := true))
  }

  function DoRecheck(p: Params, s: Sys, i: nat): Sys
    requires Enabled(p, s, Recheck(i))
  {
    var w := s.waiters[i];
    var need := w.place.need;
    var place := if s.buckets[w.bucket].redisOK then Nap(need) else Drain(need, s.now + SleepFor(p, need));
    Put(s, i, w.(place := place), s.buckets[w.bucket])
  }

  function Do(p: Params, s: Sys, step: Step): Sys
    requires Enabled(p, s, step)
  {
    match step
    case Tick(dt) => s.(now := s.now + dt)
    case NewBucket(rc) => s.(buckets := s.buckets + [Bucket(0.0, s.now, rc, rc, false, 0, s.now, s.now, 0.0, 0)])
    case Enter(i, b, count) => DoEnter(p, s, i, b, count)
    case Stamp(i, nowMs) => s.(waiters := s.waiters[i := s.waiters[i].(place := Sent(s.waiters[i].place.need, nowMs))])
    case Script(i, expired, lost) => DoScript(p, s, i, expired, lost)
    case CallFails(i) => s.(waiters := s.waiters[i := s.waiters[i].(place := Failed(s.waiters[i].place.need))])
    case MarkDown(i) => DoMarkDown(s, i)
    case StartProbe(i) =>
      var w := s.waiters[i];
      var bk := s.buckets[w.bucket];
      Put(s, i, w.(place := Check(w.place.need)), bk.(probes := bk.probes + 1, probedAt := s.now))
    case Settle(i) => DoSettle(p, s, i)
    case Recheck(i) => DoRecheck(p, s, i)
    case Wake(i) => s.(waiters := s.waiters[i := s.waiters[i].(place := Poll(s.waiters[i].place.need))])
    case Finish(i) =>
      var w := s.waiters[i];
      s.(waiters := s.waiters[i := Rested(w)],
         released := s.released + w.count as real)
    case ProbeAnswered(b) =>
      var bk := s.buckets[b];
      s.(buckets := s.buckets[b := bk.(redisOK := true, probing := false, probes := bk.probes - 1,
                                             answers := bk.answers + 1)])
  }

  // ---------------------------------------------------------------- runs

  const NEW_WAITER := Waiter(Idle, 0, 0, 0.0, 0, false, 0)

  /** No proxy has a bucket yet; the session's key may be left over from before. */
  ghost predicate Start(p: Params, s: Sys)
  {
    && s.now == s.start && ValidKey(LimitOf(p), s.key) && s.buckets == []
    && s.released == s.granted == s.lost == 0.0
    && forall w | w in s.waiters :: w == NEW_WAITER
  }

  ghost predicate CanRun(p: Params, s: Sys, steps: seq<Step>)
    decreases |steps|, 0
  {
    steps == [] ||
    (CanRun(p, s, steps[..|steps| - 1]) && Enabled(p, Run(p, s, steps[..|steps| - 1]), steps[|steps| - 1]))
  }

  ghost function Run(p: Params, s: Sys, steps: seq<Step>): Sys
    requires CanRun(p, s, steps)
    decreases |steps|, 1
  {
    if steps == [] then s else Do(p, Run(p, s, steps[..|steps| - 1]), steps[|steps| - 1])
  }

  // ---------------------------------------------------------------- what every state keeps

  /** A goroutine past its first locked section owes part of its count, on a bucket with a client unless
      it is in the degraded sleep. */
  ghost predicate SaneWaiter(buckets: seq<Bucket>, w: Waiter)
  {
    w.place.Idle? ||
    (&& w.bucket < |buckets|
     && 0.0 < w.place.need <= w.count as real
     && (w.place.Replied? ==> w.place.granted >= 0.0)
     && (w.place.Drain? || buckets[w.bucket].rc))
  }

  ghost predicate Sane(s: Sys)
  {
    && (forall w | w in s.waiters :: SaneWaiter(s.buckets, w))
    && (forall b | b in s.buckets :: b.local >= 0.0)
  }

  /** The stored balance is in range, and no more is lost than was granted. */
  ghost predicate Metered(p: Params, s: Sys)
  {
    ValidKey(LimitOf(p), s.key) && 0.0 <= s.lost <= s.granted
  }

  lemma CreditSigns(p: Params, d: real)
    ensures d >= 0.0 ==> Credit(p, d) >= 0.0
  {
  }

  lemma PutSane(s: Sys, i: nat, w: Waiter, bk: Bucket)
    requires Sane(s) && i < |s.waiters| && w.bucket < |s.buckets|
    requires bk.rc == s.buckets[w.bucket].rc && bk.local >= 0.0 && SaneWaiter(s.buckets, w)
    ensures Sane(Put(s, i, w, bk))
  {
    var t := Put(s, i, w, bk);
    forall x | x in t.waiters ensures SaneWaiter(t.buckets, x) {
      assert x == w || x in s.waiters;
      assert SaneWaiter(s.buckets, x);
    }
  }

  lemma EnterSane(p: Params, s: Sys, i: nat, b: nat, count: nat)
    requires Sane(s) && Enabled(p, s, Enter(i, b, count))
    ensures Sane(DoEnter(p, s, i, b, count))
  {
    var t := DoEnter(p, s, i, b, count);
    assert s.buckets[b] in s.buckets;
    CreditSigns(p, s.now - s.buckets[b].lastRefill);
    PutSane(s, i, t.waiters[i], t.buckets[b]);
    assert Sane(t) by { assert t == Put(s, i, t.waiters[i], t.buckets[b]).(released := t.released); }
  }

  lemma WaiterSane(s: Sys, i: nat, w: Waiter)
    requires Sane(s) && i < |s.waiters| && SaneWaiter(s.buckets, w)
    ensures Sane(s.(waiters := s.waiters[i := w]))
  {
  }

  lemma ScriptMetered(p: Params, s: Sys, i: nat, expired: bool, lost: bool)
    requires Metered(p, s) && Enabled(p, s, Script(i, expired, lost))
    ensures Metered(p, DoScript(p, s, i, expired, lost))
    ensures DoScript(p, s, i, expired, lost).granted >= s.granted
  {
  }

  lemma StepMetered(p: Params, s: Sys, step: Step)
    requires Metered(p, s) && Enabled(p, s, step)
    ensures Metered(p, Do(p, s, step))
    ensures Do(p, s, step).granted >= s.granted
  {
  }

  lemma StepSane(p: Params, s: Sys, step: Step)
    requires Sane(s) && Metered(p, s) && Enabled(p, s, step)
    ensures Sane(Do(p, s, step))
  {
    var t := Do(p, s, step);
    if step.Tick? {
    } else if step.NewBucket? {
      forall w | w in t.waiters ensures SaneWaiter(t.buckets, w) {
        assert SaneWaiter(s.buckets, w);
      }
    } else if step.ProbeAnswered? {
      assert s.buckets[step.b] in s.buckets;
      forall w | w in t.waiters ensures SaneWaiter(t.buckets, w) {
        assert SaneWaiter(s.buckets, w);
      }
    } else if step.Enter? {
      EnterSane(p, s, step.i, step.b, step.count);
    } else {
      var w := s.waiters[step.i];
      assert w in s.waiters && s.buckets[w.bucket] in s.buckets;
      if step.Script? {
        ScriptMetered(p, s, step.i, step.expired, step.lost);
        WaiterSane(s, step.i, t.waiters[step.i]);
      } else if step.Stamp? || step.CallFails? || step.Wake? || step.Finish? {
        WaiterSane(s, step.i, t.waiters[step.i]);
      } else {
        PutSane(s, step.i, t.waiters[step.i], t.buckets[w.bucket]);
      }
    }
  }

  // ---------------------------------------------------------------- the books

  /** Tokens in a goroutine's hands: paid towards its count but not yet released. */
  ghost function Held(w: Waiter): real
  {
    match w.place
    case Idle => 0.0
    case Replied(need, granted) => w.count as real - need + granted
    case place => w.count as real - place.need
  }

  ghost function WaiterNet(w: Waiter): real { Held(w) - w.paid }

  ghost function BucketNet(b: Bucket): real { b.local - b.accrued }

  /** Everything released, lost, held or stored came from the script, from local accrual or from a sleep. */
  ghost predicate Balanced(s: Sys)
  {
    s.released + s.lost + Sum(s.waiters, WaiterNet) + Sum(s.buckets, BucketNet) == s.granted
  }

  lemma PutNets(s: Sys, i: nat, w: Waiter, bk: Bucket)
    requires i < |s.waiters| && w.bucket < |s.buckets|
    ensures var t := Put(s, i, w, bk);
      && Sum(t.waiters, WaiterNet) == Sum(s.waiters, WaiterNet) - WaiterNet(s.waiters[i]) + WaiterNet(w)
      && Sum(t.buckets, BucketNet) == Sum(s.buckets, BucketNet) - BucketNet(s.buckets[w.bucket]) + BucketNet(bk)
  {
    SumUpdate(s.waiters, WaiterNet, i, w);
    SumUpdate(s.buckets, BucketNet, w.bucket, bk);
  }

  lemma EnterBalances(p: Params, s: Sys, i: nat, b: nat, count: nat)
    requires Balanced(s) && Enabled(p, s, Enter(i, b, count))
    ensures Balanced(DoEnter(p, s, i, b, count))
  {
    var t := DoEnter(p, s, i, b, count);
    PutNets(s, i, t.waiters[i], t.buckets[b]);
  }

  lemma SettleBalances(p: Params, s: Sys, i: nat)
    requires Balanced(s) && Sane(s) && Enabled(p, s, Settle(i))
    ensures Balanced(DoSettle(p, s, i))
  {
    assert s.waiters[i] in s.waiters;
    var t := DoSettle(p, s, i);
    PutNets(s, i, t.waiters[i], t.buckets[s.waiters[i].bucket]);
  }

  /** A step that moves one goroutine and leaves the buckets' books alone. */
  lemma MoveBalances(s: Sys, t: Sys, i: nat)
    requires Balanced(s) && i < |s.waiters| && |t.waiters| == |s.waiters|
    requires t.waiters == s.waiters[i := t.waiters[i]] && Sum(t.buckets, BucketNet) == Sum(s.buckets, BucketNet)
    requires t.released + t.lost - t.granted + WaiterNet(t.waiters[i])
          == s.released + s.lost - s.granted + WaiterNet(s.waiters[i])
    ensures Balanced(t)
  {
    SumUpdate(s.waiters, WaiterNet, i, t.waiters[i]);
  }

  lemma FlagsBalance(s: Sys, t: Sys, i: nat)
    requires Balanced(s) && i < |s.waiters| && s.waiters[i].bucket < |s.buckets| == |t.buckets|
    requires |t.waiters| == |s.waiters| && t.waiters[i].bucket == s.waiters[i].bucket
    requires t == Put(s, i, t.waiters[i], t.buckets[s.waiters[i].bucket])
    requires WaiterNet(t.waiters[i]) == WaiterNet(s.waiters[i])
    requires BucketNet(t.buckets[s.waiters[i].bucket]) == BucketNet(s.buckets[s.waiters[i].bucket])
    ensures Balanced(t)
  {
    PutNets(s, i, t.waiters[i], t.buckets[s.waiters[i].bucket]);
  }

  lemma StepBalances(p: Params, s: Sys, step: Step)
    requires Balanced(s) && Sane(s) && Enabled(p, s, step)
    ensures Balanced(Do(p, s, step))
  {
    var t := Do(p, s, step);
    if step.Tick? {
    } else if step.NewBucket? {
      SumAppend(s.buckets, BucketNet, t.buckets[|s.buckets|]);
    } else if step.ProbeAnswered? {
      SumUpdate(s.buckets, BucketNet, step.b, t.buckets[step.b]);
    } else if step.Enter? {
      EnterBalances(p, s, step.i, step.b, step.count);
    } else if step.Settle? {
      SettleBalances(p, s, step.i);
    } else if step.MarkDown? || step.StartProbe? || step.Recheck? {
      FlagsBalance(s, t, step.i);
    } else {
      MoveBalances(s, t, step.i);
    }
  }

  // ---------------------------------------------------------------- probes

  ghost function SpawnsOn(b: nat): Waiter -> bool
  {
    (w: Waiter) => w.place.Spawn? && w.bucket == b
  }

  /** A bucket with a client is being probed exactly while Redis is marked down, by one goroutine that is
      running or about to be started; a bucket without one never is. */
  ghost predicate Probed(s: Sys)
  {
    forall b | 0 <= b < |s.buckets| ::
      var bk := s.buckets[b];
      && bk.probing == (bk.rc && !bk.redisOK)
      && (!bk.rc ==> !bk.redisOK)
      && bk.probes + Count(s.waiters, SpawnsOn(b)) == if bk.probing then 1 else 0
  }

  /** A step that moves one goroutine keeps the flags right if the flags of its bucket stay in step with the
      number of probes running and about to be started there. */
  lemma MoveProbed(s: Sys, t: Sys, i: nat)
    requires Probed(s) && i < |s.waiters| && |t.waiters| == |s.waiters| && |t.buckets| == |s.buckets|
    requires t.waiters == s.waiters[i := t.waiters[i]]
    requires forall b | 0 <= b < |s.buckets| ::
      var was, bk := s.buckets[b], t.buckets[b];
      && bk.rc == was.rc && bk.probing == (bk.rc && !bk.redisOK) && (!bk.rc ==> !bk.redisOK)
      && bk.probes + (if SpawnsOn(b)(t.waiters[i]) then 1 else 0) - (if bk.probing then 1 else 0)
           == was.probes + (if SpawnsOn(b)(s.waiters[i]) then 1 else 0) - (if was.probing then 1 else 0)
    ensures Probed(t)
  {
    forall b | 0 <= b < |t.buckets|
      ensures t.buckets[b].probes + Count(t.waiters, SpawnsOn(b)) == if t.buckets[b].probing then 1 else 0
    {
      CountUpdate(s.waiters, SpawnsOn(b), i, t.waiters[i]);
    }
  }

  lemma MarkDownProbed(s: Sys, i: nat)
    requires Sane(s) && Probed(s) && In(s, i) && s.waiters[i].place.Failed?
    ensures Probed(DoMarkDown(s, i))
  {
    assert SaneWaiter(s.buckets, s.waiters[i]);
    MoveProbed(s, DoMarkDown(s, i), i);
  }

  lemma StartProbeProbed(p: Params, s: Sys, i: nat)
    requires Sane(s) && Probed(s) && Enabled(p, s, StartProbe(i))
    ensures Probed(Do(p, s, StartProbe(i)))
  {
    assert SaneWaiter(s.buckets, s.waiters[i]);
    MoveProbed(s, Do(p, s, StartProbe(i)), i);
  }

  lemma StepProbed(p: Params, s: Sys, step: Step)
    requires Sane(s) && Probed(s) && Enabled(p, s, step)
    ensures Probed(Do(p, s, step))
  {
    if step.NewBucket? {
      CountPositive(s.waiters, SpawnsOn(|s.buckets|));
    } else if step.Tick? || step.ProbeAnswered? {
    } else if step.MarkDown? {
      MarkDownProbed(s, step.i);
    } else if step.StartProbe? {
      StartProbeProbed(p, s, step.i);
    } else {
      MoveProbed(s, Do(p, s, step), step.i);
    }
  }

  // ---------------------------------------------------------------- time

  lemma CreditAdd(p: Params, a: real, b: real)
    ensures Credit(p, a + b) == Credit(p, a) + Credit(p, b)
  {
  }

  lemma CreditGrows(p: Params, a: real, b: real)
    requires a <= b
    ensures Credit(p, a) <= Credit(p, b)
  {
  }

  lemma CreditOfSleep(p: Params, need: real)
    requires p.rate > 0.0
    ensures Credit(p, SleepFor(p, need)) == need
  {
  }

  ghost predicate TimedWaiter(p: Params, s: Sys, w: Waiter)
  {
    && w.paid <= Credit(p, s.now - s.start)
    && (w.place.Drain? ==> w.paid + w.place.need <= Credit(p, w.place.until - s.start))
  }

  ghost predicate TimedBucket(p: Params, s: Sys, b: Bucket)
  {
    && s.start <= b.created <= b.lastRefill <= s.now
    && b.accrued <= Credit(p, b.lastRefill - b.created)
  }

  /** Local accrual and degraded sleeps are worth no more than the time they took. */
  ghost predicate Timed(p: Params, s: Sys)
  {
    && s.start <= s.now
    && (forall w | w in s.waiters :: TimedWaiter(p, s, w))
    && (forall b | b in s.buckets :: TimedBucket(p, s, b))
  }

  lemma StartsDrain(p: Params, s: Sys, w: Waiter, need: real)
    requires p.rate > 0.0 && w.paid <= Credit(p, s.now - s.start)
    ensures w.paid + need <= Credit(p, s.now + SleepFor(p, need) - s.start)
  {
  }

  lemma RefillTimed(p: Params, s: Sys, b: Bucket)
    requires TimedBucket(p, s, b)
    ensures TimedBucket(p, s, Refilled(p, b, s.now))
  {
    CreditAdd(p, b.lastRefill - b.created, s.now - b.lastRefill);
    assert b.lastRefill - b.created + (s.now - b.lastRefill) == s.now - b.created;
  }

  lemma TickTimed(p: Params, s: Sys, dt: real)
    requires Timed(p, s) && dt >= 0.0
    ensures Timed(p, s.(now := s.now + dt))
  {
    CreditGrows(p, s.now - s.start, s.now + dt - s.start);
    hide Credit;
  }

  lemma MoveTimed(p: Params, s: Sys, t: Sys, i: nat)
    requires Timed(p, s) && i < |s.waiters| && t.now == s.now && t.start == s.start
    requires |t.waiters| == |s.waiters| && t.waiters == s.waiters[i := t.waiters[i]] && TimedWaiter(p, s, t.waiters[i])
    requires |t.buckets| == |s.buckets|
    requires forall b | 0 <= b < |s.buckets| ::
      t.buckets[b].lastRefill == s.buckets[b].lastRefill && t.buckets[b].created == s.buckets[b].created
      && t.buckets[b].accrued == s.buckets[b].accrued
    ensures Timed(p, t)
  {
    forall w | w in t.waiters ensures TimedWaiter(p, t, w) {
      assert w == t.waiters[i] || w in s.waiters;
      assert TimedWaiter(p, s, w);
    }
    forall b | b in t.buckets ensures TimedBucket(p, t, b) {
      var k :| 0 <= k < |t.buckets| && t.buckets[k] == b;
      assert TimedBucket(p, s, s.buckets[k]);
    }
  }

  lemma EnterTimed(p: Params, s: Sys, i: nat, b: nat, count: nat)
    requires p.rate > 0.0 && Timed(p, s) && Enabled(p, s, Enter(i, b, count))
    ensures Timed(p, DoEnter(p, s, i, b, count))
  {
    var t := DoEnter(p, s, i, b, count);
    var bk := Refilled(p, s.buckets[b], s.now);
    var mid := s.(buckets := s.buckets[b := bk]);
    assert TimedBucket(p, s, s.buckets[b]);
    RefillTimed(p, s, s.buckets[b]);
    forall x | x in mid.buckets ensures TimedBucket(p, mid, x) {
      assert x == bk || x in s.buckets;
    }
    forall w | w in mid.waiters ensures TimedWaiter(p, mid, w) { assert TimedWaiter(p, s, w); }
    assert s.waiters[i] in s.waiters && TimedWaiter(p, s, s.waiters[i]);
    StartsDrain(p, s, s.waiters[i], count as real - bk.local);
    MoveTimed(p, mid, t, i);
  }

  lemma StepTimed(p: Params, s: Sys, step: Step)
    requires p.rate > 0.0 && Timed(p, s) && Enabled(p, s, step)
    ensures Timed(p, Do(p, s, step))
  {
    var t := Do(p, s, step);
    if step.Tick? {
      TickTimed(p, s, step.dt);
    } else if step.NewBucket? || step.ProbeAnswered? {
      CreditSigns(p, 0.0);
      hide Credit;
      forall w | w in t.waiters ensures TimedWaiter(p, t, w) { assert TimedWaiter(p, s, w); }
      forall b | b in t.buckets ensures TimedBucket(p, t, b) {
        if b in s.buckets { assert TimedBucket(p, s, b); }
        else if step.ProbeAnswered? { assert TimedBucket(p, s, s.buckets[step.b]); }
      }
    } else if step.Enter? {
      EnterTimed(p, s, step.i, step.b, step.count);
    } else {
      var w := s.waiters[step.i];
      assert w in s.waiters && TimedWaiter(p, s, w);
      if step.Recheck? {
        StartsDrain(p, s, w, w.place.need);
      } else if step.Finish? {
        CreditGrows(p, w.place.until - s.start, s.now - s.start);
      }
      MoveTimed(p, s, t, step.i);
    }
  }

  // ---------------------------------------------------------------- every run

  ghost predicate Inv(p: Params, s: Sys)
  {
    Sane(s) && Metered(p, s) && Balanced(s) && Probed(s) && (p.rate > 0.0 ==> Timed(p, s))
  }

  lemma StartInv(p: Params, s: Sys)
    requires Start(p, s)
    ensures Inv(p, s)
  {
    SumSame(s.waiters, WaiterNet, Nothing);
    SumNothing(s.waiters);
    forall w | w in s.waiters ensures TimedWaiter(p, s, w) {}
  }

  ghost function Nothing(w: Waiter): real { 0.0 }

  lemma SumNothing(ws: seq<Waiter>)
    ensures Sum(ws, Nothing) == 0.0
  {
  }

  lemma StepInv(p: Params, s: Sys, step: Step)
    requires Inv(p, s) && Enabled(p, s, step)
    ensures Inv(p, Do(p, s, step))
  {
    StepSane(p, s, step);
    StepMetered(p, s, step);
    StepBalances(p, s, step);
    StepProbed(p, s, step);
    if p.rate > 0.0 {
      StepTimed(p, s, step);
    }
  }

  lemma {:induction false} RunInv(p: Params, s: Sys, steps: seq<Step>)
    requires Start(p, s) && CanRun(p, s, steps)
    ensures Inv(p, Run(p, s, steps))
  {
    hide Do, Enabled;
    if steps == [] {
      StartInv(p, s);
    } else {
      RunInv(p, s, steps[..|steps| - 1]);
      StepInv(p, Run(p, s, steps[..|steps| - 1]), steps[|steps| - 1]);
    }
  }

  /** What the run's goroutines and buckets could at most earn for themselves while Redis was away. */
  ghost function SelfEarned(p: Params, s: Sys): real
  {
    (|s.waiters| + |s.buckets|) as real * Credit(p, s.now - s.start)
  }

  lemma NetsAtLeast(p: Params, s: Sys)
    requires Sane(s) && Timed(p, s)
    ensures Sum(s.waiters, WaiterNet) + Sum(s.buckets, BucketNet) >= -SelfEarned(p, s)
  {
    var c := Credit(p, s.now - s.start);
    forall w | w in s.waiters ensures -c <= WaiterNet(w) {
      assert SaneWaiter(s.buckets, w) && TimedWaiter(p, s, w);
    }
    forall b | b in s.buckets ensures -c <= BucketNet(b) {
      assert TimedBucket(p, s, b);
      CreditGrows(p, b.lastRefill - b.created, s.now - s.start);
    }
    SumAtLeast(s.waiters, WaiterNet, -c);
    SumAtLeast(s.buckets, BucketNet, -c);
    var n, m := |s.waiters| as real, |s.buckets| as real;
    assert n * -c + m * -c == -((n + m) * c);
  }

  // ---------------------------------------------------------------- no Redis at all

  ghost predicate NoClient(s: Sys)
  {
    forall b | b in s.buckets :: !b.rc
  }

  lemma ScriptNeedsClient(p: Params, s: Sys, step: Step)
    requires Sane(s) && Enabled(p, s, step) && step.Script?
    ensures !NoClient(Do(p, s, step))
  {
    var w := s.waiters[step.i];
    assert SaneWaiter(s.buckets, w);
    assert Do(p, s, step).buckets[w.bucket] in Do(p, s, step).buckets;
  }

  lemma StepNoClient(p: Params, s: Sys, step: Step)
    requires Sane(s) && Enabled(p, s, step) && NoClient(Do(p, s, step))
    ensures NoClient(s) && Do(p, s, step).granted == s.granted
  {
    var t := Do(p, s, step);
    if step.Script? {
      ScriptNeedsClient(p, s, step);
    }
    forall k | 0 <= k < |s.buckets| ensures !s.buckets[k].rc {
      assert t.buckets[k] in t.buckets;
    }
  }

  lemma {:induction false} NoClientNoGrants(p: Params, s: Sys, steps: seq<Step>)
    requires Start(p, s) && CanRun(p, s, steps) && NoClient(Run(p, s, steps))
    ensures Run(p, s, steps).granted == 0.0
  {
    hide Do, Enabled;
    if steps != [] {
      var before := steps[..|steps| - 1];
      RunInv(p, s, before);
      StepNoClient(p, Run(p, s, before), steps[|steps| - 1]);
      NoClientNoGrants(p, s, before);
    }
  }

  lemma ReleasedWithoutRedis(p: Params, s: Sys, steps: seq<Step>)
    requires p.rate > 0.0 && Start(p, s) && CanRun(p, s, steps) && NoClient(Run(p, s, steps))
    ensures Run(p, s, steps).released <= SelfEarned(p, Run(p, s, steps))
  {
    hide Do, Enabled;
    RunInv(p, s, steps);
    NoClientNoGrants(p, s, steps);
    NetsAtLeast(p, Run(p, s, steps));
  }

  /** Without Redis only sleeps and local accrual pay: one proxy with one caller gets twice the rate. */
  lemma SoloWithoutRedis(p: Params, s: Sys, steps: seq<Step>)
    requires p.rate > 0.0 && Start(p, s) && CanRun(p, s, steps) && NoClient(Run(p, s, steps))
    requires |s.waiters| == 1 && |Run(p, s, steps).buckets| == 1
    ensures var t := Run(p, s, steps); t.released <= RatesOver(p, 2, t.now - t.start)
  {
    hide Do, Enabled;
    var t := Run(p, s, steps);
    ReleasedWithoutRedis(p, s, steps);
    RunKeepsWaiters(p, s, steps);
    SelfEarnedIs(p, t, 2);
  }

  lemma Extend(p: Params, s: Sys, steps: seq<Step>, step: Step) returns (longer: seq<Step>)
    requires CanRun(p, s, steps) && Enabled(p, Run(p, s, steps), step)
    ensures longer == steps + [step] && CanRun(p, s, longer)
    ensures Run(p, s, longer) == Do(p, Run(p, s, steps), step)
  {
    longer := steps + [step];
    assert longer[..|longer| - 1] == steps;
  }

  /** One caller on one proxy without a client, at rest at a time when nothing is saved up. */
  ghost predicate AtRest(s: Sys)
  {
    && |s.waiters| == 1 && s.waiters[0].place.Idle? && |s.buckets| == 1
    && s.buckets[0].local == 0.0 && s.buckets[0].lastRefill == s.now && !s.buckets[0].rc && !s.buckets[0].redisOK
  }

  lemma FallsAsleep(p: Params, s: Sys, count: nat)
    requires AtRest(s) && 0 < count
    ensures Enabled(p, s, Enter(0, 0, count))
    ensures var place := Drain(count as real, s.now + SleepFor(p, count as real));
      Do(p, s, Enter(0, 0, count)) == s.(waiters := [s.waiters[0].(place := place, bucket := 0, count := count)])
  {
  }

  lemma ServedFromAccrual(p: Params, s: Sys, count: nat, nap: real)
    requires nap > 0.0 && AtRest(s.(now := s.now - nap)) && 0 < count
    requires Credit(p, nap) == count as real <= p.capacity
    ensures Enabled(p, s, Enter(0, 0, count))
    ensures var t := Do(p, s, Enter(0, 0, count));
      AtRest(t) && t.released == s.released + count as real && t.now == s.now
  {
  }

  /** A Wait that sleeps for its whole count, followed by one that comes right after it. */
  ghost function Pair(p: Params, count: nat): seq<Step>
  {
    [Enter(0, 0, count), Tick(SleepFor(p, count as real)), Finish(0), Enter(0, 0, count)]
  }

  ghost predicate AllEnabled(p: Params, s: Sys, steps: seq<Step>)
    decreases |steps|
  {
    steps == [] || (Enabled(p, s, steps[0]) && AllEnabled(p, Do(p, s, steps[0]), steps[1..]))
  }

  ghost function DoAll(p: Params, s: Sys, steps: seq<Step>): Sys
    requires AllEnabled(p, s, steps)
    decreases |steps|
  {
    if steps == [] then s else DoAll(p, Do(p, s, steps[0]), steps[1..])
  }

  lemma {:induction false} ExtendAll(p: Params, s: Sys, steps: seq<Step>, more: seq<Step>)
    requires CanRun(p, s, steps) && AllEnabled(p, Run(p, s, steps), more)
    ensures CanRun(p, s, steps + more) && Run(p, s, steps + more) == DoAll(p, Run(p, s, steps), more)
    decreases |more|
  {
    hide Do, Enabled;
    if more == [] {
      assert steps + more == steps;
    } else {
      var longer := Extend(p, s, steps, more[0]);
      ExtendAll(p, s, longer, more[1..]);
      assert longer + more[1..] == steps + more;
    }
  }

  lemma AllOfFour(p: Params, s: Sys, a: Step, b: Step, c: Step, d: Step)
    requires Enabled(p, s, a) && Enabled(p, Do(p, s, a), b)
    requires var m := Do(p, Do(p, s, a), b); Enabled(p, m, c) && Enabled(p, Do(p, m, c), d)
    ensures AllEnabled(p, s, [a, b, c, d])
    ensures DoAll(p, s, [a, b, c, d]) == Do(p, Do(p, Do(p, Do(p, s, a), b), c), d)
  {
    hide Do, Enabled, AllEnabled, DoAll;
    var m := Do(p, Do(p, s, a), b);
    NoneLeft(p, Do(p, Do(p, m, c), d));
    OneFirst(p, Do(p, m, c), d, []);
    OneFirst(p, m, c, [d] + []);
    OneFirst(p, Do(p, s, a), b, [c] + ([d] + []));
    OneFirst(p, s, a, [b] + ([c] + ([d] + [])));
    assert [a] + ([b] + ([c] + ([d] + []))) == [a, b, c, d];
  }

  lemma NoneLeft(p: Params, s: Sys)
    ensures AllEnabled(p, s, []) && DoAll(p, s, []) == s
  {
  }

  lemma OneFirst(p: Params, s: Sys, step: Step, rest: seq<Step>)
    requires Enabled(p, s, step) && AllEnabled(p, Do(p, s, step), rest)
    ensures AllEnabled(p, s, [step] + rest) && DoAll(p, s, [step] + rest) == DoAll(p, Do(p, s, step), rest)
  {
    hide Do, Enabled;
    assert ([step] + rest)[1..] == rest;
  }

  /** The second Wait is served at once from what accrued while the first one slept. */
  lemma TwoForOne(p: Params, s: Sys, count: nat)
    requires p.rate > 0.0 && 0 < count && count as real <= p.capacity && AtRest(s)
    ensures AllEnabled(p, s, Pair(p, count))
    ensures var t := DoAll(p, s, Pair(p, count));
      && AtRest(t) && t.start == s.start
      && t.released == s.released + 2.0 * count as real && t.now == s.now + SleepFor(p, count as real)
  {
    var enter, nap := Enter(0, 0, count), SleepFor(p, count as real);
    CreditOfSleep(p, count as real);
    FallsAsleep(p, s, count);
    var a := Do(p, Do(p, s, enter), Tick(nap));
    ServedFromAccrual(p, Do(p, a, Finish(0)), count, nap);
    AllOfFour(p, s, enter, Tick(nap), Finish(0), enter);
  }

  lemma OneMoreNap(p: Params, count: nat, k: nat, d: real)
    requires p.rate > 0.0 && k > 0
    ensures var nap := SleepFor(p, count as real);
      && Credit(p, d + nap) == Credit(p, d) + count as real
      && (k - 1) as real * nap + nap == k as real * nap
  {
  }

  /** The bound of SoloWithoutRedis is reached: k pairs of calls release exactly twice the rate. */
  lemma {:induction false} TwiceTheRateIsReached(p: Params, s: Sys, count: nat, k: nat) returns (steps: seq<Step>)
    requires p.rate > 0.0 && 0 < count && count as real <= p.capacity
    requires Start(p, s) && |s.waiters| == 1
    ensures CanRun(p, s, steps) && AtRest(Run(p, s, steps))
    ensures var t := Run(p, s, steps);
      && t.released == 2.0 * Credit(p, t.now - t.start)
      && t.now - t.start == k as real * SleepFor(p, count as real)
  {
    if k == 0 {
      steps := OneBucket(p, s);
    } else {
      hide Do, Enabled, AtRest, SleepFor, Credit, CanRun, Run;
      var shorter := TwiceTheRateIsReached(p, s, count, k - 1);
      var was := Run(p, s, shorter);
      TwoForOne(p, was, count);
      ExtendAll(p, s, shorter, Pair(p, count));
      steps := shorter + Pair(p, count);
      OneMoreNap(p, count, k, was.now - was.start);
      assert Run(p, s, steps).now - was.start == was.now - was.start + SleepFor(p, count as real);
    }
  }

  lemma OneBucket(p: Params, s: Sys) returns (steps: seq<Step>)
    requires Start(p, s) && |s.waiters| == 1
    ensures CanRun(p, s, steps) && AtRest(Run(p, s, steps))
    ensures var t := Run(p, s, steps); t.released == 0.0 == Credit(p, 0.0) && t.now == t.start
  {
    assert s.waiters[0] in s.waiters;
    steps := Extend(p, s, [], NewBucket(false));
  }

  lemma SelfEarnedIs(p: Params, s: Sys, k: nat)
    requires k == |s.waiters| + |s.buckets|
    ensures SelfEarned(p, s) == RatesOver(p, k, s.now - s.start)
  {
  }

  lemma {:induction false} RunKeepsWaiters(p: Params, s: Sys, steps: seq<Step>)
    requires CanRun(p, s, steps)
    ensures |Run(p, s, steps).waiters| == |s.waiters| && Run(p, s, steps).start == s.start
  {
    if steps != [] {
      RunKeepsWaiters(p, s, steps[..|steps| - 1]);
    }
  }

  // ---------------------------------------------------------------- Redis reachable

  /** The script call always succeeds and its reply arrives; every proxy has a client. */
  ghost predicate Reaches(step: Step)
  {
    !step.CallFails? && (step.Script? ==> !step.lost) && (step.NewBucket? ==> step.rc)
  }

  ghost predicate HealthyWaiter(w: Waiter)
  {
    w.paid == 0.0 && !w.place.Failed? && !w.place.Spawn? && !w.place.Drain?
  }

  ghost predicate Healthy(s: Sys)
  {
    && s.lost == 0.0
    && (forall w | w in s.waiters :: HealthyWaiter(w))
    && (forall b | b in s.buckets :: b.rc && b.redisOK && b.accrued == 0.0 && b.probes == 0)
  }

  lemma StepHealthy(p: Params, s: Sys, step: Step)
    requires Sane(s) && Healthy(s) && Enabled(p, s, step) && Reaches(step)
    ensures Healthy(Do(p, s, step))
  {
    var t := Do(p, s, step);
    if step.Tick? || step.NewBucket? || step.ProbeAnswered? {
    } else {
      var w := s.waiters[step.i];
      assert HealthyWaiter(w);
      if step.Enter? {
        assert s.buckets[step.b] in s.buckets;
      } else {
        assert SaneWaiter(s.buckets, w) && s.buckets[w.bucket] in s.buckets;
      }
      assert t.waiters == s.waiters[step.i := t.waiters[step.i]] && HealthyWaiter(t.waiters[step.i]);
      forall x | x in t.waiters ensures HealthyWaiter(x) {
        assert x == t.waiters[step.i] || x in s.waiters;
      }
    }
  }

  lemma {:induction false} RunHealthy(p: Params, s: Sys, steps: seq<Step>)
    requires Start(p, s) && CanRun(p, s, steps) && forall step | step in steps :: Reaches(step)
    ensures Healthy(Run(p, s, steps))
  {
    hide Do, Enabled;
    if steps != [] {
      var before := steps[..|steps| - 1];
      RunHealthy(p, s, before);
      RunInv(p, s, before);
      StepHealthy(p, Run(p, s, before), steps[|steps| - 1]);
    }
  }

  ghost function Local(b: Bucket): real { b.local }

  /** Tokens given out but not yet released: with the goroutines, and prefetched in the proxies. */
  ghost function Outstanding(s: Sys): real
  {
    Sum(s.waiters, Held) + Sum(s.buckets, Local)
  }

  lemma OutstandingNotNegative(p: Params, s: Sys)
    requires Sane(s)
    ensures Outstanding(s) >= 0.0
  {
    forall w | w in s.waiters ensures Held(w) >= 0.0 { assert SaneWaiter(s.buckets, w); }
    SumAtLeast(s.waiters, Held, 0.0);
    SumAtLeast(s.buckets, Local, 0.0);
  }

  /** With Redis reachable no byte is created or lost on the way from the script to the client. */
  lemma Conservation(p: Params, s: Sys, steps: seq<Step>)
    requires Start(p, s) && CanRun(p, s, steps) && forall step | step in steps :: Reaches(step)
    ensures var t := Run(p, s, steps);
      t.released + Outstanding(t) == t.granted && Outstanding(t) >= 0.0
  {
    hide Do, Enabled;
    var t := Run(p, s, steps);
    RunInv(p, s, steps);
    RunHealthy(p, s, steps);
    SumSame(t.waiters, WaiterNet, Held);
    SumSame(t.buckets, BucketNet, Local);
    OutstandingNotNegative(p, t);
  }
}
