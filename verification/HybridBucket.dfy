// One proxy's bandwidth bucket and its Wait, run by one goroutine against a Redis that may fail.
//
// Every locked section, script call and sleep of Wait is logged as a step of BucketSystem, so whatever is
// proved about all runs of that system holds of every object of this class.
module HybridBucket {
  import opened Basics
  import opened TokenScript
  import opened BucketSystem
  import opened BucketWindows
  import opened BucketOutages
  import opened BucketBursts

  /** What a script call meets: an answer, a refusal, or a reply lost after the script has run. */
  datatype Outcome = Answers | Refuses | LosesReply

  /** Redis and the clock; asked is the length of the last sleep that was asked for. */
  class World {
    var now: real
    var asked: real
    var key: Option<Hash>
    var calls: nat
    const outcome: nat -> Outcome

    constructor (now: real, key: Option<Hash>, outcome: nat -> Outcome)
      ensures this.now == now && this.key == key && this.outcome == outcome
    {
      this.now, asked, this.key, calls, this.outcome := now, 0.0, key, 0, outcome;
    }

    /** Some time, at least d seconds, passes. */
    method Sleep(d: real)
      requires d >= 0.0
      modifies this`now, this`asked
      ensures now >= old(now) + d && asked == d
    {
      now, asked := now + d, d;
    }

    /** The Lua script. */
    method Eval(l: Limit, req: nat, nowMs: int) returns (granted: real)
      modifies this`key
      ensures granted == Granted(l, old(key), Call(req, nowMs))
      ensures key == Some(Stored(l, old(key), Call(req, nowMs)))
    {
      var tokens, lastTick := l.cap as real, nowMs;
      if key.Some? {
        tokens, lastTick := key.value.tokens, key.value.lastTick;
      }
      var elapsed := (nowMs - lastTick) as real / 1000.0;
      if elapsed > 0.0 {
        tokens := tokens + elapsed * l.rate as real;
        if tokens > l.cap as real {
          tokens := l.cap as real;
        }
      }
      granted := 0.0;
      if tokens >= req as real {
        granted := req as real;
        tokens := tokens - req as real;
      } else if tokens > 0.0 {
        granted := tokens;
        tokens := 0.0;
      }
      key := Some(Hash(tokens, nowMs));
    }
  }

  class HybridBucket {
    const limit: Params
    const rc: bool
    const world: World
    var local: real
    var lastRefill: real
    var redisOK: bool
    var probing: bool
    var probes: nat
    var probedAt: real

    ghost const origin: Sys
    ghost var trace: seq<Step>
    ghost var sys: Sys

    /** sys is where the logged steps lead. */
    ghost predicate Logged()
      reads this`sys, this`trace
    {
      && Start(limit, origin) && |origin.waiters| == 1
      && CanRun(limit, origin, trace) && Run(limit, origin, trace) == sys && OneClock(limit, origin, trace)
      && |sys.waiters| == 1 && |sys.buckets| == 1
    }

    /** sys shows the object's own fields, and the goroutine is at the given place. */
    ghost predicate Shown(place: Place)
      reads this, world
    {
      && Logged()
      && sys.now == world.now && sys.key == world.key
      && sys.waiters[0].place == place && (place.Idle? || sys.waiters[0].bucket == 0)
      && var b := sys.buckets[0];
         && b.local == local && b.lastRefill == lastRefill && b.rc == rc
         && b.redisOK == redisOK && b.probing == probing && b.probes == probes && b.probedAt == probedAt
    }

    ghost predicate Valid()
      reads this, world
    {
      Shown(Idle)
    }

    constructor (limit: Params, rc: bool, world: World)
      requires ValidKey(LimitOf(limit), world.key)
      ensures Valid() && this.limit == limit && this.rc == rc && this.world == world
      ensures sys.released == 0.0 && local == 0.0
    {
      this.limit, this.rc, this.world := limit, rc, world;
      local, lastRefill, redisOK, probing, probes, probedAt := 0.0, world.now, rc, false, 0, world.now;
      var start := Sys(world.now, world.now, world.key, world.now, [], [NEW_WAITER], 0.0, 0.0, 0.0);
      origin := start;
      trace := [NewBucket(rc)];
      sys := Do(limit, start, NewBucket(rc));
      new;
      assert trace[..0] == [];
    }

    ghost method Log(step: Step)
      requires Logged() && Enabled(limit, sys, step) && !step.NewBucket?
      requires step.Stamp? ==> step.nowMs == Ms(sys.now)
      modifies this`sys, this`trace
      ensures Logged() && sys == Do(limit, old(sys), step) && trace == old(trace) + [step]
    {
      var longer := Extend(limit, origin, trace, step);
      assert longer[..|longer| - 1] == trace;
      trace := longer;
      sys := Do(limit, sys, step);
    }

    /** Sleeping, or just the time between two statements. */
    method Pass(d: real, ghost place: Place)
      requires Shown(place) && d >= 0.0
      modifies world`now, world`asked, this`sys, this`trace
      ensures Shown(place) && world.now >= old(world.now) + d && world.asked == d
      ensures sys == old(sys).(now := world.now)
    {
      world.Sleep(d);
      Log(Tick(world.now - sys.now));
    }

    /** One run of the script; None when the call returns an error. Time may pass between the reading of the clock and
        the run. */
    method CallScript(requested: real, ghost need: real) returns (reply: Option<real>)
      requires Shown(Poll(need)) && need > 0.0 && requested == if limit.rate > need then limit.rate else need
      modifies this`sys, this`trace, world`key, world`calls, world`now, world`asked
      ensures reply.Some? ==> Shown(Replied(need, reply.value)) && reply.value >= 0.0
      ensures reply.None? ==> Shown(Failed(need))
      ensures sys.released == old(sys.released) && sys.waiters[0].count == old(sys.waiters[0].count)
      ensures world.calls == old(world.calls) + 1 && world.now >= old(world.now)
      ensures reply.Some? <==> world.outcome(old(world.calls)).Answers?
      ensures var larger := if limit.rate > need then limit.rate else need;
        Batch(limit, need) as real <= larger < Batch(limit, need) as real + 1.0
      ensures reply.Some? ==> var call := Call(Batch(limit, need), Ms(old(world.now)));
        reply.value == Granted(LimitOf(limit), old(world.key), call)
        && world.key == Some(Stored(LimitOf(limit), old(world.key), call))
    {
      var nowMs := Ms(world.now);
      Log(Stamp(0, nowMs));
      Pass(0.0, Sent(need, nowMs));
      var outcome := world.outcome(world.calls);
      world.calls := world.calls + 1;
      if outcome.Refuses? {
        Log(CallFails(0));
        return None;
      }
      var granted := world.Eval(LimitOf(limit), requested.Floor, nowMs);
      Log(Script(0, false, outcome.LosesReply?));
      reply := if outcome.LosesReply? then None else Some(granted);
    }

    /** The locked section after a failed call: at most one probe is started. */
    method MarkDown(ghost need: real)
      requires Shown(Failed(need))
      modifies this`sys, this`trace, this`redisOK, this`probing, this`probes, this`probedAt
      ensures Shown(Check(need)) && !redisOK && probing
      ensures probes == if old(probing) then old(probes) else old(probes) + 1
      ensures sys.released == old(sys.released) && sys.waiters[0].count == old(sys.waiters[0].count)
    {
      var shouldProbe := !probing;
      Log(Step.MarkDown(0));
      redisOK, probing := false, true;
      if shouldProbe {
        Log(StartProbe(0));
        probes, probedAt := probes + 1, world.now;
      }
    }

    /** The degraded sleep that ends a Wait. */
    method DegradedSleep(need: real, ghost until: real)
      requires Shown(Drain(need, until)) && until == world.now + SleepFor(limit, need) && need > 0.0
      modifies this`sys, this`trace, world`now, world`asked
      ensures Valid() && sys.released == old(sys.released) + old(sys.waiters[0].count) as real
      ensures world.now >= until && (limit.rate > 0.0 ==> world.asked == need / limit.rate)
    {
      if limit.rate > 0.0 {
        Pass(need / limit.rate, Drain(need, until));
      }
      Log(Finish(0));
    }

    /** What degraded local accrual has saved up: at most one burst. */
    ghost function Saved(): real
      reads this, world
    {
      Least(limit.capacity, local + (world.now - lastRefill) * limit.rate)
    }

    /** Local accrual while Redis is unavailable. */
    method Accrue()
      modifies this`local, this`lastRefill
      ensures forall b: Bucket ::
        b.local == old(local) && b.lastRefill == old(lastRefill) && b.rc == rc && b.redisOK == redisOK
        && !(redisOK && rc) ==>
          var r := Refilled(limit, b, world.now); local == r.local && lastRefill == r.lastRefill
      ensures old(lastRefill) < world.now ==> local == old(Saved())
    {
      var now := world.now;
      var elapsed := now - lastRefill;
      if elapsed > 0.0 {
        local := local + elapsed * limit.rate;
        if local > limit.capacity {
          local := limit.capacity;
        }
        lastRefill := now;
      }
    }

    /** The first locked section. Returns what is left to pay, 0 when the fast path served it all. */
    method TakeLocal(count: nat) returns (need: real, canRedis: bool)
      requires Valid() && count > 0
      modifies this`sys, this`trace, this`local, this`lastRefill
      ensures canRedis == (redisOK && rc)
      ensures need == 0.0 ==> Valid() && sys.released == old(sys.released) + count as real
      ensures need != 0.0 ==>
        && local == 0.0 && 0.0 < need && (canRedis ==> need == count as real - old(local))
        && Shown(if canRedis then Poll(need) else Drain(need, world.now + SleepFor(limit, need)))
        && sys.released == old(sys.released) && sys.waiters[0].count == count
      ensures !canRedis && old(lastRefill) < world.now ==>
        var saved := old(Saved());
        if count as real <= saved then need == 0.0 && local == saved - count as real else need == count as real - saved
    {
      canRedis := redisOK && rc;
      ghost var bk := Refilled(limit, sys.buckets[0], sys.now);
      if !canRedis {
        Accrue();
      }
      assert local == bk.local && lastRefill == bk.lastRefill;
      hide Saved, CanRun, Run, OneClock, Start;
      Log(Enter(0, 0, count));
      need := count as real;
      if local >= need {
        local := local - need;
        return 0.0, canRedis;
      }
      need := need - local;
      local := 0.0;
    }

    /** One script call of the polling loop and what follows from its reply. Once a millisecond has passed
        since the last call, it pays for at least a thousandth of the rate, or for the capacity. */
    method Ask(need: real) returns (finished: bool, left: real)
      requires Shown(Poll(need)) && need > 0.0
      modifies this`sys, this`trace, this`local, this`redisOK, this`probing, this`probes, this`probedAt, world
      ensures world.calls == old(world.calls) + 1 && world.now >= old(world.now)
      ensures finished ==> Valid() && sys.released == old(sys.released) + old(sys.waiters[0].count) as real
      ensures !finished ==> 0.0 < left <= need && Shown(Check(left))
      ensures !finished ==>
        sys.released == old(sys.released) && sys.waiters[0].count == old(sys.waiters[0].count)
      ensures !finished && redisOK ==>
        && world.outcome(old(world.calls)).Answers? && world.key.Some? && world.key.value.lastTick == Ms(old(world.now))
        && (MayEarn(old(world.key), Ms(old(world.now))) ==> left <= need - PerPoll(limit))
    {
      var batch := need;
      if limit.rate > batch {
        batch := limit.rate;
      }
      ghost var key, nowMs := world.key, Ms(world.now);
      KeyIsValid();
      PollEarns(limit, key, nowMs, need);
      var reply := CallScript(batch, need);
      if reply.Some? {
        finished, left := Settle(need, reply.value);
      } else {
        MarkDown(need);
        finished, left := false, need;
      }
    }

    /** One turn of the polling loop, up to its sleep; left is what the Wait still owes. */
    method PollOnce(need: real) returns (finished: bool, left: real)
      requires Shown(Poll(need)) && need > 0.0
      modifies this, world
      ensures world.calls == old(world.calls) + 1
      ensures finished ==> Valid() && sys.released == old(sys.released) + old(sys.waiters[0].count) as real
      ensures !finished ==> 0.0 < left <= need && Shown(Nap(left)) && world.now >= old(world.now)
      ensures !finished ==>
        sys.released == old(sys.released) && sys.waiters[0].count == old(sys.waiters[0].count)
      ensures !finished ==>
        && world.outcome(old(world.calls)).Answers? && world.key.Some? && world.key.value.lastTick == Ms(old(world.now))
        && (MayEarn(old(world.key), Ms(old(world.now))) ==> left <= need - PerPoll(limit))
    {
      finished, left := Ask(need);
      if finished {
        return;
      }
      var stillRedisOK := redisOK;
      Log(Recheck(0));
      finished := !stillRedisOK;
      if finished {
        DegradedSleep(left, world.now + SleepFor(limit, left));
      }
    }

    /** Takes the granted tokens: what exceeds the need is prefetched for later. */
    method Settle(need: real, granted: real) returns (finished: bool, left: real)
      requires Shown(Replied(need, granted)) && need > 0.0 && granted >= 0.0
      modifies this`sys, this`trace, this`local
      ensures finished == (granted >= need) && left == need - granted
      ensures finished ==> Valid() && sys.released == old(sys.released) + old(sys.waiters[0].count) as real
      ensures !finished ==> Shown(Check(left))
      ensures !finished ==>
        sys.released == old(sys.released) && sys.waiters[0].count == old(sys.waiters[0].count)
    {
      Log(Step.Settle(0));
      finished, left := granted >= need, need - granted;
      if finished {
        local := local + granted - need;
      }
    }

    /** The sleep between two polls, between 1 and 100 milliseconds. A quotient by a rate of zero may convert to any
        duration. */
    method SleepBetweenPolls(need: real)
      requires Shown(Nap(need))
      modifies this`sys, this`trace, world`now, world`asked
      ensures Shown(Poll(need)) && world.now >= old(world.now) + 0.001
      ensures 0.001 <= world.asked <= 0.1
      ensures limit.rate > 0.0 && 0.001 <= need / limit.rate <= 0.1 ==> world.asked == need / limit.rate
      ensures sys.released == old(sys.released) && sys.waiters[0].count == old(sys.waiters[0].count)
    {
      var sleepDur: real := *;
      if limit.rate > 0.0 {
        sleepDur := need / limit.rate;
      }
      if sleepDur > 0.1 {
        sleepDur := 0.1;
      }
      if sleepDur < 0.001 {
        sleepDur := 0.001;
      }
      Pass(sleepDur, Nap(need));
      Log(Wake(0));
    }

    /** A turn with the sleep after it. */
    method Turn(need: real) returns (finished: bool, left: real)
      requires Shown(Poll(need)) && need > 0.0
      modifies this, world
      ensures world.calls == old(world.calls) + 1
      ensures finished ==> Valid() && sys.released == old(sys.released) + old(sys.waiters[0].count) as real
      ensures !finished ==> 0.0 < left <= need && Shown(Poll(left)) && MayEarn(world.key, Ms(world.now))
      ensures !finished ==>
        sys.released == old(sys.released) && sys.waiters[0].count == old(sys.waiters[0].count)
      ensures !finished ==>
        && world.outcome(old(world.calls)).Answers?
        && (MayEarn(old(world.key), Ms(old(world.now))) ==> left <= need - PerPoll(limit))
    {
      ghost var asked := world.now;
      finished, left := PollOnce(need);
      if !finished {
        SleepBetweenPolls(left);
        MsAdvances(asked, world.now);
      }
    }

    /** Polling ends: every poll a millisecond after the last pays its part, or a script call is bound to fail. */
    ghost predicate Ends()
      reads world
    {
      WholeBytes(limit) || exists i :: i >= world.calls && !world.outcome(i).Answers?
    }

    /** Blocks until count bytes may be sent. Every completed Wait releases exactly its count, and all of a bucket's
        Waits together stay within the budget of one proxy with one goroutine. A Wait that can use Redis ends with the
        first call that fails, and from one byte of rate and capacity on after at most PollBudget calls; below that,
        with calls that all succeed, it would not end (NothingBelowOneByte). */
    method Wait(count: int) returns (polls: nat)
      requires Valid()
      requires redisOK && rc && count as real > local ==> Ends()
      modifies this, world
      ensures Valid()
      ensures count <= 0 ==> polls == 0 && sys == old(sys)
      ensures count > 0 ==> sys.released == old(sys.released) + count as real
      ensures world.calls == old(world.calls) + polls
      ensures polls > 0 ==> old(local) < count as real
      ensures polls > 0 && WholeBytes(limit) ==> polls <= PollBudget(limit, count as real - old(local))
      ensures forall i :: old(world.calls) <= i < world.calls - 1 ==> world.outcome(i).Answers?
      ensures count > 0 && old(!(redisOK && rc) && lastRefill < world.now) ==>
        var saved := old(Saved());
        && polls == 0 && (count as real <= saved ==> world.now == old(world.now) && local == saved - count as real)
        && (count as real > saved && limit.rate > 0.0 ==>
              local == 0.0 && world.now >= old(world.now) + (count as real - saved) / limit.rate)
      ensures WithinOneProxyBudget()
    {
      polls := 0;
      if count > 0 {
        var need, canRedis := TakeLocal(count);
        if need > 0.0 && !canRedis {
          DegradedSleep(need, world.now + SleepFor(limit, need));
        } else if need > 0.0 {
          polls := PollUntilServed(need);
        }
      }
      OneProxyBudget();
    }

    /** The loop of Wait. */
    method PollUntilServed(total: real) returns (polls: nat)
      requires Shown(Poll(total)) && total > 0.0 && Ends()
      modifies this, world
      ensures Valid() && sys.released == old(sys.released) + old(sys.waiters[0].count) as real
      ensures world.calls == old(world.calls) + polls && (WholeBytes(limit) ==> polls <= PollBudget(limit, total))
      ensures forall i :: old(world.calls) <= i < world.calls - 1 ==> world.outcome(i).Answers?
    {
      var need := total;
      ghost var failing :| WholeBytes(limit) || (failing >= world.calls && !world.outcome(failing).Answers?);
      ghost var bound := if WholeBytes(limit) then PollBudget(limit, total) else failing - world.calls + 1;
      polls := 0;
      if WholeBytes(limit) { WithinBudget(limit, total, total, 0); }
      hide Ms, PollBudget, PerPoll, WholeBytes, Run, CanRun, Start, OneClock;
      while need > 0.0
        invariant Shown(Poll(need)) && 0.0 < need <= total
        invariant sys.released == old(sys.released) && sys.waiters[0].count == old(sys.waiters[0].count)
        invariant world.calls == old(world.calls) + polls && polls < bound
        invariant forall i :: old(world.calls) <= i < world.calls ==> world.outcome(i).Answers?
        invariant PaidBy(limit, total, need, polls)
        invariant polls > 0 ==> MayEarn(world.key, Ms(world.now))
        decreases bound - polls
      {
        var finished, left := Turn(need);
        polls := polls + 1;
        if finished {
          return;
        }
        PaysMore(limit, total, need, left, polls - 1);
        need := left;
        if WholeBytes(limit) { WithinBudget(limit, total, need, polls); }
      }
      assert false;
    }

    lemma KeyIsValid()
      requires Logged()
      ensures ValidKey(LimitOf(limit), sys.key)
    {
      RunInv(limit, origin, trace);
    }

    /** The probe goroutine's locked section once Redis has answered its ping. */
    method ProbeAnswered()
      requires Valid() && probes > 0 && world.now >= probedAt + PROBE_PERIOD
      modifies this`sys, this`trace, this`redisOK, this`probing, this`probes
      ensures Valid() && redisOK && !probing && probes == old(probes) - 1
      ensures sys.released == old(sys.released)
    {
      Log(Step.ProbeAnswered(0));
      redisOK, probing, probes := true, false, probes - 1;
    }

    /** Between Waits a bucket with a client is probed exactly while Redis is marked down, by one goroutine. */
    lemma OneProbe()
      requires Valid()
      ensures probing == (rc && !redisOK) && probes == if probing then 1 else 0
    {
      RunInv(limit, origin, trace);
      if exists w :: w in sys.waiters && SpawnsOn(0)(w) {
        assert sys.waiters == [sys.waiters[0]];
      }
      CountPositive(sys.waiters, SpawnsOn(0));
    }

    /** What this bucket has released since it was made, against one burst, three rates and the rounding. */
    ghost predicate WithinOneProxyBudget()
      reads this
    {
      limit.rate > 0.0 ==>
        sys.released <= limit.capacity + RatesOver(limit, 3, sys.now - sys.start)
          + RatesOver(limit, 3, 0.001) + RatesOver(limit, 1, (sys.now - sys.start) / 5000.0)
    }

    lemma OneProxyBudget()
      requires Logged()
      ensures WithinOneProxyBudget()
    {
      if limit.rate > 0.0 {
        OneProxyReleasedOverTime(limit, origin, trace);
      }
    }
  }

  // ---------------------------------------------------------------- how long a Wait can poll

  /** Rate and capacity are at least one byte. */
  predicate WholeBytes(p: Params) { p.rate >= 1.0 && p.capacity >= 1.0 }

  /** What every poll but the first is sure to be granted: a thousandth of the whole-number rate, unless that is more
      than the capacity. */
  function PerPoll(p: Params): (pay: real)
    ensures pay >= 0.0 && (WholeBytes(p) <==> pay > 0.0)
    ensures p.capacity >= p.rate ==> pay == p.rate.Floor as real / 1000.0
  {
    var thousandth := p.rate.Floor as real / 1000.0;
    if p.capacity.Floor as real < thousandth then p.capacity.Floor as real else thousandth
  }

  /** One poll, and one for every such part that is still missing. */
  function PollBudget(p: Params, need: real): int
    requires PerPoll(p) > 0.0
  {
    1 - (-(need / PerPoll(p))).Floor
  }

  /** The last call is at least a millisecond old. */
  predicate MayEarn(key: Option<Hash>, nowMs: int) { key.Some? && key.value.lastTick + 1 <= nowMs }

  /** All polls but the first have paid their part. */
  ghost predicate PaidBy(p: Params, total: real, need: real, polls: nat)
  {
    polls > 0 ==> need + (polls - 1) as real * PerPoll(p) <= total
  }

  lemma PaysMore(p: Params, total: real, need: real, left: real, polls: nat)
    requires PaidBy(p, total, need, polls) && left <= need <= total
    requires polls > 0 ==> left <= need - PerPoll(p)
    ensures PaidBy(p, total, left, polls + 1)
  {
  }

  lemma MsAdvances(a: real, b: real)
    requires a + 0.001 <= b
    ensures Ms(a) + 1 <= Ms(b)
  {
  }

  lemma PollEarns(p: Params, key: Option<Hash>, nowMs: int, need: real)
    requires need > 0.0 && ValidKey(LimitOf(p), key)
    ensures MayEarn(key, nowMs) ==> Granted(LimitOf(p), key, Call(Batch(p, need), nowMs)) >= PerPoll(p)
  {
    if MayEarn(key, nowMs) {
      var l, ms := LimitOf(p), nowMs - key.value.lastTick;
      EarnedAdd(l, 1, ms - 1);
      assert Batch(p, need) >= p.rate.Floor;
    }
  }

  lemma WithinBudget(p: Params, total: real, need: real, polls: nat)
    requires PerPoll(p) > 0.0 && 0.0 < need <= total && PaidBy(p, total, need, polls)
    ensures polls < PollBudget(p, total)
  {
  }

  /** With a rate or a capacity below one byte the script is asked for whole bytes of an empty bucket: nothing is ever
      granted, by any calls at any times, so the polling loop of Wait has no end. */
  lemma NothingBelowOneByte(p: Params, key: Option<Hash>, calls: seq<Call>)
    requires p.rate < 1.0 || p.capacity < 1.0
    requires ValidKey(LimitOf(p), key)
    ensures Total(LimitOf(p), key, calls) == 0.0
  {
    assert LimitOf(p).cap == 0;
    EmptyBucketGrantsNothing(LimitOf(p), key, calls);
  }

  lemma {:induction false} EmptyBucketGrantsNothing(l: Limit, key: Option<Hash>, calls: seq<Call>)
    requires l.cap == 0 && ValidKey(l, key)
    ensures Total(l, key, calls) == 0.0 && ValidKey(l, After(l, key, calls))
  {
    if calls != [] {
      EmptyBucketGrantsNothing(l, key, calls[..|calls| - 1]);
    }
  }
}
