// What a session lets through in any window of any run, with Redis failing and recovering at any points: idle time
// pays for one burst and no more.
module BucketBursts {
  import opened Basics
  import opened TokenScript
  import opened BucketSystem
  import opened BucketWindows

  function Least(x: real, y: real): real { if x < y then x else y }

  // ---------------------------------------------------------------- the proxies' balances

  /** What a proxy could let through at once without asking Redis: with a client it may hold tokens from Redis, and when
      Redis is marked down it is credited all the time since its last accrual, up to the capacity. */
  function Ready(p: Params, b: Bucket, now: real): real
  {
    var earned := Credit(p, now - b.lastRefill);
    if b.rc then b.local + Least(p.capacity, earned) else Least(p.capacity, b.local + earned)
  }

  /** Tokens that a proxy has let through beyond those it took from Redis. */
  function Spent(b: Bucket): real { b.accrued - b.local }

  /** A proxy that never sees Redis holds at most one burst. */
  ghost predicate Capped(p: Params, s: Sys)
  {
    forall b | b in s.buckets && !b.rc :: b.local <= p.capacity
  }

  lemma StepCapped(p: Params, s: Sys, step: Step)
    requires Sane(s) && Capped(p, s) && Enabled(p, s, step)
    ensures Capped(p, Do(p, s, step))
  {
    var t := Do(p, s, step);
    if step.Settle? { assert SaneWaiter(s.buckets, s.waiters[step.i]); }
    forall k | 0 <= k < |t.buckets| && !t.buckets[k].rc ensures t.buckets[k].local <= p.capacity {
      if k < |s.buckets| { assert s.buckets[k] in s.buckets; }
    }
  }

  lemma {:induction false} RunCapped(p: Params, s: Sys, steps: seq<Step>)
    requires Start(p, s) && CanRun(p, s, steps)
    ensures Capped(p, Run(p, s, steps))
  {
    hide Do, Enabled;
    if steps != [] {
      RunInv(p, s, steps[..|steps| - 1]);
      RunCapped(p, s, steps[..|steps| - 1]);
      StepCapped(p, Run(p, s, steps[..|steps| - 1]), steps[|steps| - 1]);
    }
  }

  /** What the k-th proxy had spent at a, and could have spent then; a proxy made later had nothing. */
  function ReadyAt(p: Params, a: Sys, k: nat): real
  {
    if k < |a.buckets| then Spent(a.buckets[k]) + Ready(p, a.buckets[k], a.now) else 0.0
  }

  ghost predicate BucketWithin(p: Params, a: Sys, s: Sys, k: nat)
    requires k < |s.buckets|
  {
    Spent(s.buckets[k]) + Ready(p, s.buckets[k], s.now) <= ReadyAt(p, a, k) + Credit(p, s.now - a.now)
  }

  ghost predicate BucketsWithin(p: Params, a: Sys, s: Sys)
  {
    |a.buckets| <= |s.buckets| && a.now <= s.now && forall k | 0 <= k < |s.buckets| :: BucketWithin(p, a, s, k)
  }

  lemma LaterReady(p: Params, b: Bucket, now: real, later: real)
    requires now <= later
    ensures Ready(p, b, later) <= Ready(p, b, now) + Credit(p, later - now)
  {
    CreditAdd(p, now - b.lastRefill, later - now);
    CreditSigns(p, later - now);
  }

  lemma RefilledReady(p: Params, b: Bucket, now: real)
    requires b.lastRefill <= now && b.local >= 0.0
    ensures var r := Refilled(p, b, now);
      && Spent(r) == Spent(b) && Ready(p, r, now) <= Ready(p, b, now) && r.rc == b.rc
      && (!b.rc && b.local <= p.capacity ==> r.lastRefill == now && r.local <= p.capacity)
  {
    CreditSigns(p, now - b.lastRefill);
    CreditAdd(p, 0.0, 0.0);
  }

  lemma TakenReady(p: Params, b: Bucket, x: real, now: real)
    requires 0.0 <= x && (b.rc || (b.lastRefill == now && b.local <= p.capacity))
    ensures var t := b.(local := b.local - x); Spent(t) + Ready(p, t, now) <= Spent(b) + Ready(p, b, now)
  {
    CreditAdd(p, 0.0, 0.0);
  }

  /** What leaves the local balance is spent, and cannot be spent again. */
  lemma EnterBucketWithin(p: Params, s: Sys, i: nat, b: nat, count: nat)
    requires Sane(s) && Timed(p, s) && Capped(p, s) && Enabled(p, s, Enter(i, b, count))
    ensures var t := DoEnter(p, s, i, b, count);
      Spent(t.buckets[b]) + Ready(p, t.buckets[b], s.now) <= Spent(s.buckets[b]) + Ready(p, s.buckets[b], s.now)
  {
    assert s.buckets[b] in s.buckets && TimedBucket(p, s, s.buckets[b]);
    var r, t := Refilled(p, s.buckets[b], s.now), DoEnter(p, s, i, b, count);
    RefilledReady(p, s.buckets[b], s.now);
    CreditSigns(p, s.now - s.buckets[b].lastRefill);
    assert 0.0 <= t.buckets[b].local <= r.local && t.buckets[b] == r.(local := t.buckets[b].local);
    hide Refilled, Ready;
    TakenReady(p, r, r.local - t.buckets[b].local, s.now);
  }

  lemma StepBucketsWithin(p: Params, a: Sys, s: Sys, step: Step)
    requires Sane(s) && Timed(p, s) && Capped(p, s) && Enabled(p, s, step) && BucketsWithin(p, a, s)
    ensures BucketsWithin(p, a, Do(p, s, step))
  {
    var t := Do(p, s, step);
    if step.Tick? {
      CreditAdd(p, s.now - a.now, step.dt);
      forall k | 0 <= k < |t.buckets| ensures BucketWithin(p, a, t, k) {
        assert BucketWithin(p, a, s, k);
        LaterReady(p, s.buckets[k], s.now, t.now);
      }
    } else {
      CreditSigns(p, s.now - a.now);
      if step.Enter? { EnterBucketWithin(p, s, step.i, step.b, step.count); }
      if step.Settle? { assert SaneWaiter(s.buckets, s.waiters[step.i]); }
      forall k | 0 <= k < |t.buckets| ensures BucketWithin(p, a, t, k) {
        if k < |s.buckets| { assert BucketWithin(p, a, s, k); }
      }
    }
  }

  // ---------------------------------------------------------------- the goroutines' sleeps

  /** What a goroutine has in hand, and what the degraded sleep it is in will pay: all of its count then. */
  ghost function Pending(w: Waiter): real { Held(w) + Asleep(w) }

  function Asleep(w: Waiter): real { if w.place.Drain? then w.place.need else 0.0 }

  /** Since a goroutine w's sleeps have paid for no more than their time, but for the one it was in at a. */
  ghost predicate SleptWithin(p: Params, a: Sys, was: Waiter, s: Sys, w: Waiter)
  {
    && w.paid <= was.paid + Asleep(was) + Credit(p, s.now - a.now)
    && (w.place.Drain? ==>
          w.paid + w.place.need <= was.paid + Asleep(was) + Credit(p, Later(w.place.until, a.now) - a.now))
  }

  function Later(x: real, y: real): real { if x < y then y else x }

  ghost predicate AllSleptWithin(p: Params, a: Sys, s: Sys)
  {
    && a.now <= s.now && |a.waiters| == |s.waiters|
    && forall i | 0 <= i < |s.waiters| :: SleptWithin(p, a, a.waiters[i], s, s.waiters[i])
  }

  lemma FallsAsleepWithin(p: Params, a: Sys, was: Waiter, s: Sys, w: Waiter, need: real)
    requires p.rate > 0.0 && a.now <= s.now && SleptWithin(p, a, was, s, w) && need > 0.0
    ensures w.paid + need <= was.paid + Asleep(was) + Credit(p, Later(s.now + SleepFor(p, need), a.now) - a.now)
  {
    CreditOfSleep(p, need);
    CreditAdd(p, s.now - a.now, SleepFor(p, need));
    assert s.now - a.now + SleepFor(p, need) == s.now + SleepFor(p, need) - a.now;
    assert Later(s.now + SleepFor(p, need), a.now) == s.now + SleepFor(p, need);
  }

  lemma WakesWithin(p: Params, a: Sys, was: Waiter, s: Sys, w: Waiter)
    requires a.now <= s.now && SleptWithin(p, a, was, s, w) && w.place.Drain? && w.place.until <= s.now
    ensures SleptWithin(p, a, was, s, Rested(w))
  {
    CreditGrows(p, Later(w.place.until, a.now) - a.now, s.now - a.now);
  }

  lemma StepSleptWithin(p: Params, a: Sys, s: Sys, step: Step)
    requires p.rate > 0.0 && Sane(s) && Enabled(p, s, step) && AllSleptWithin(p, a, s)
    ensures AllSleptWithin(p, a, Do(p, s, step))
  {
    var t := Do(p, s, step);
    if step.Tick? { CreditGrows(p, s.now - a.now, t.now - a.now); }
    forall i | 0 <= i < |t.waiters| ensures SleptWithin(p, a, a.waiters[i], t, t.waiters[i]) {
      var w := s.waiters[i];
      assert SleptWithin(p, a, a.waiters[i], s, w);
      if w != t.waiters[i] && t.waiters[i].place.Drain? {
        assert SaneWaiter(s.buckets, w);
        FallsAsleepWithin(p, a, a.waiters[i], s, w, t.waiters[i].place.need);
      } else if step.Finish? && step.i == i {
        WakesWithin(p, a, a.waiters[i], s, w);
      }
    }
  }

  // ---------------------------------------------------------------- any window of any run

  lemma {:induction false} SumWithin<A, B>(x: seq<A>, f: A -> real, y: seq<B>, g: B -> real, c: real)
    requires |x| == |y| && forall i | 0 <= i < |x| :: f(x[i]) <= g(y[i]) + c
    ensures Sum(x, f) <= Sum(y, g) + |x| as real * c
  {
    if x != [] {
      var n := |x| - 1;
      SumWithin(x[..n], f, y[..n], g, c);
      assert |x| as real * c == n as real * c + c;
    }
  }

  lemma {:induction false} RunWithin(p: Params, s: Sys, steps: seq<Step>, i: nat)
    requires p.rate > 0.0 && Start(p, s) && CanRun(p, s, steps) && i <= |steps|
    ensures CanRun(p, s, steps[..i])
    ensures var a, b := Run(p, s, steps[..i]), Run(p, s, steps); BucketsWithin(p, a, b) && AllSleptWithin(p, a, b)
    decreases |steps|
  {
    hide Do, Enabled, Inv;
    PrefixRuns(p, s, steps, i);
    if i == |steps| {
      assert steps[..i] == steps;
      RunSaneAndTimed(p, s, steps);
      AtOnceWithin(p, Run(p, s, steps));
    } else {
      var before := steps[..|steps| - 1];
      assert before[..i] == steps[..i];
      hide BucketsWithin, AllSleptWithin, Capped, Sane, Timed;
      RunWithin(p, s, before, i);
      RunSaneAndTimed(p, s, before);
      RunCapped(p, s, before);
      StepBucketsWithin(p, Run(p, s, steps[..i]), Run(p, s, before), steps[|steps| - 1]);
      StepSleptWithin(p, Run(p, s, steps[..i]), Run(p, s, before), steps[|steps| - 1]);
    }
  }

  lemma AtOnceWithin(p: Params, s: Sys)
    requires Sane(s)
    ensures BucketsWithin(p, s, s) && AllSleptWithin(p, s, s)
  {
    CreditAdd(p, 0.0, 0.0);
    forall i | 0 <= i < |s.waiters| ensures SleptWithin(p, s, s.waiters[i], s, s.waiters[i]) {
      assert SaneWaiter(s.buckets, s.waiters[i]);
      if s.waiters[i].place.Drain? { CreditSigns(p, Later(s.waiters[i].place.until, s.now) - s.now); }
    }
  }

  lemma RunSaneAndTimed(p: Params, s: Sys, steps: seq<Step>)
    requires p.rate > 0.0 && Start(p, s) && CanRun(p, s, steps)
    ensures Sane(Run(p, s, steps)) && Timed(p, Run(p, s, steps)) && Balanced(Run(p, s, steps))
    ensures Metered(p, Run(p, s, steps))
  {
    RunInv(p, s, steps);
  }

  lemma WaiterSlept(p: Params, a: Sys, s: Sys, i: nat)
    requires Sane(s) && AllSleptWithin(p, a, s) && i < |s.waiters|
    ensures Gone(s.waiters[i]) <= Coming(a.waiters[i]) + Credit(p, s.now - a.now)
  {
    assert SaneWaiter(s.buckets, s.waiters[i]) && SleptWithin(p, a, a.waiters[i], s, s.waiters[i]);
  }

  lemma SleptSum(p: Params, a: Sys, s: Sys)
    requires Sane(s) && AllSleptWithin(p, a, s)
    ensures -Sum(s.waiters, WaiterNet) <= Sum(a.waiters, Pending) - Sum(a.waiters, WaiterNet)
                                       + CreditOfMany(p, |s.waiters|, s.now - a.now)
  {
    forall i | 0 <= i < |s.waiters| ensures Gone(s.waiters[i]) <= Coming(a.waiters[i]) + Credit(p, s.now - a.now) {
      WaiterSlept(p, a, s, i);
    }
    hide Gone, Coming, Credit, Sane;
    SumWithin(s.waiters, Gone, a.waiters, Coming, Credit(p, s.now - a.now));
    GoneSum(s.waiters);
    GoneSum(a.waiters);
  }

  lemma GoneSum(ws: seq<Waiter>)
    ensures Sum(ws, Gone) == -Sum(ws, WaiterNet) && Sum(ws, Coming) == Sum(ws, Pending) - Sum(ws, WaiterNet)
  {
    Negated(ws, WaiterNet, Gone);
    SumAdd(ws, Pending, Gone, Coming);
  }

  /** What a goroutine has let through on its own account; and what it will have once its sleep is over. */
  ghost function Gone(w: Waiter): real { -WaiterNet(w) }

  ghost function Coming(w: Waiter): real { Pending(w) + Gone(w) }

  ghost function SpentOf(b: Bucket): real { -BucketNet(b) }

  ghost function ReadyOf(p: Params, now: real): Bucket -> real { (b: Bucket) => Ready(p, b, now) }

  ghost function SpentOrReady(p: Params, now: real): Bucket -> real { (b: Bucket) => SpentOf(b) + Ready(p, b, now) }

  lemma BucketSpent(p: Params, a: Sys, s: Sys, k: nat)
    requires Sane(s) && Timed(p, s) && BucketsWithin(p, a, s) && k < |s.buckets|
    ensures SpentOf(s.buckets[k]) <= ReadyAt(p, a, k) + Credit(p, s.now - a.now)
  {
    assert s.buckets[k] in s.buckets && TimedBucket(p, s, s.buckets[k]) && BucketWithin(p, a, s, k);
    CreditSigns(p, s.now - s.buckets[k].lastRefill);
  }

  lemma SpentSum(p: Params, a: Sys, s: Sys)
    requires Sane(s) && Timed(p, s) && BucketsWithin(p, a, s)
    ensures -Sum(s.buckets, BucketNet) <= Sum(a.buckets, ReadyOf(p, a.now)) - Sum(a.buckets, BucketNet)
                                       + CreditOfMany(p, |s.buckets|, s.now - a.now)
  {
    var n := |a.buckets|;
    FirstSpent(p, a, s);
    LastSpent(p, a, s);
    SumSplit(s.buckets, SpentOf, n);
    SpentOfSum(p, a.buckets, a.now);
    SpentOfSum(p, s.buckets, a.now);
    hide CreditOfMany, Credit, RatesOver, SpentOf, SpentOrReady, ReadyOf, Sane, Timed, BucketsWithin;
    TwoRates(p, n, |s.buckets| - n, s.now - a.now);
    TwoRates(p, 0, |s.buckets|, s.now - a.now);
  }

  lemma FirstSpent(p: Params, a: Sys, s: Sys)
    requires Sane(s) && Timed(p, s) && BucketsWithin(p, a, s)
    ensures var n := |a.buckets|;
      Sum(s.buckets[..n], SpentOf) <= Sum(a.buckets, SpentOrReady(p, a.now)) + CreditOfMany(p, n, s.now - a.now)
  {
    var c, n, ready := Credit(p, s.now - a.now), |a.buckets|, SpentOrReady(p, a.now);
    forall k | 0 <= k < n ensures SpentOf(s.buckets[k]) <= ready(a.buckets[k]) + c { BucketSpent(p, a, s, k); }
    hide Credit, SpentOf, SpentOrReady;
    SumWithin(s.buckets[..n], SpentOf, a.buckets, ready, c);
  }

  lemma LastSpent(p: Params, a: Sys, s: Sys)
    requires Sane(s) && Timed(p, s) && BucketsWithin(p, a, s)
    ensures var n := |a.buckets|; Sum(s.buckets[n..], SpentOf) <= CreditOfMany(p, |s.buckets| - n, s.now - a.now)
  {
    var c, n := Credit(p, s.now - a.now), |a.buckets|;
    forall k | n <= k < |s.buckets| ensures SpentOf(s.buckets[k]) <= c { BucketSpent(p, a, s, k); }
    hide Credit, SpentOf;
    SumAtMost(s.buckets[n..], SpentOf, c);
  }

  lemma SpentOfSum(p: Params, bs: seq<Bucket>, now: real)
    ensures Sum(bs, SpentOf) == -Sum(bs, BucketNet)
    ensures Sum(bs, SpentOrReady(p, now)) == Sum(bs, ReadyOf(p, now)) - Sum(bs, BucketNet)
  {
    Negated(bs, BucketNet, SpentOf);
    SumAdd(bs, SpentOf, ReadyOf(p, now), SpentOrReady(p, now));
  }

  lemma {:induction false} Negated<T>(x: seq<T>, f: T -> real, g: T -> real)
    requires forall e | e in x :: g(e) == -f(e)
    ensures Sum(x, g) == -Sum(x, f)
  {
    if x != [] {
      assert x[|x| - 1] in x;
      Negated(x[..|x| - 1], f, g);
    }
  }

  lemma {:induction false} SumAtMost<T>(x: seq<T>, f: T -> real, c: real)
    requires forall i | 0 <= i < |x| :: f(x[i]) <= c
    ensures Sum(x, f) <= |x| as real * c
  {
    if x != [] {
      var n := |x| - 1;
      SumAtMost(x[..n], f, c);
      assert |x| as real * c == n as real * c + c;
    }
  }

  lemma {:induction false} SumSplit<T>(x: seq<T>, f: T -> real, n: nat)
    requires n <= |x|
    ensures Sum(x, f) == Sum(x[..n], f) + Sum(x[n..], f)
    decreases |x|
  {
    if n == |x| {
      assert x[..n] == x && x[n..] == [];
    } else {
      var m := |x| - 1;
      SumSplit(x[..m], f, n);
      assert x[..m][..n] == x[..n] && x[..m][n..] == x[n..][..m - n];
    }
  }

  /** Any window of any run, with any clocks and outages: what it releases was granted in it, or was in the
      goroutines' and proxies' hands before, with one burst in each proxy, or is the rate over the window, once for
      each of them. */
  lemma ReleasedInAnyWindow(p: Params, s: Sys, steps: seq<Step>, i: nat)
    requires p.rate > 0.0 && Start(p, s) && CanRun(p, s, steps) && i <= |steps|
    ensures CanRun(p, s, steps[..i])
    ensures var a, b := Run(p, s, steps[..i]), Run(p, s, steps);
      b.released - a.released <= b.granted - a.granted + Sum(a.waiters, Pending) + Sum(a.buckets, ReadyOf(p, a.now))
        + RatesOver(p, |s.waiters| + |b.buckets|, b.now - a.now)
  {
    hide Do, Enabled, Sane, Timed, Metered, Capped, BucketsWithin, AllSleptWithin, Run, Start;
    RunWithin(p, s, steps, i);
    var a, b := Run(p, s, steps[..i]), Run(p, s, steps);
    RunSaneAndTimed(p, s, steps);
    RunSaneAndTimed(p, s, steps[..i]);
    RunCapped(p, s, steps);
    RunKeepsWaiters(p, s, steps);
    SleptSum(p, a, b);
    SpentSum(p, a, b);
    LostGrows(p, s, steps, i);
    TwoRates(p, |s.waiters|, |b.buckets|, b.now - a.now);
  }

  lemma TwoRates(p: Params, n: nat, m: nat, d: real)
    ensures CreditOfMany(p, n, d) + CreditOfMany(p, m, d) == RatesOver(p, n + m, d)
    ensures CreditOfMany(p, 0, d) == 0.0
  {
  }

  lemma LostMore(p: Params, s: Sys, step: Step)
    requires Enabled(p, s, step)
    ensures s.lost <= Do(p, s, step).lost
  {
  }

  lemma {:induction false} LostGrows(p: Params, s: Sys, steps: seq<Step>, i: nat)
    requires CanRun(p, s, steps) && i <= |steps|
    ensures CanRun(p, s, steps[..i]) && Run(p, s, steps[..i]).lost <= Run(p, s, steps).lost
    decreases |steps|
  {
    hide Do, Enabled;
    PrefixRuns(p, s, steps, i);
    if i == |steps| {
      assert steps[..i] == steps;
    } else {
      assert steps[..|steps| - 1][..i] == steps[..i];
      LostGrows(p, s, steps[..|steps| - 1], i);
      LostMore(p, Run(p, s, steps[..|steps| - 1]), steps[|steps| - 1]);
    }
  }

  /** With one clock the script's grants are bounded too: one burst of its own, and the rate over the elapsed time
      with the calls in flight. */
  lemma ReleasedWithOutages(p: Params, s: Sys, steps: seq<Step>, i: nat)
    requires p.rate > 0.0 && Start(p, s) && CanRun(p, s, steps) && i <= |steps| && OneClock(p, s, steps)
    ensures CanRun(p, s, steps[..i])
    ensures var l, a, b := LimitOf(p), Run(p, s, steps[..i]), Run(p, s, steps);
      b.released - a.released <= l.cap as real + Earned(l, Elapsed(a, b)) + Sum(a.waiters, Pending)
        + Sum(a.buckets, ReadyOf(p, a.now)) + RatesOver(p, |s.waiters| + |b.buckets|, b.now - a.now)
  {
    hide Do, Enabled, Earned, Elapsed, RatesOver;
    ReleasedInAnyWindow(p, s, steps, i);
    GrantsInWindow(p, s, steps, i);
  }

  // ---------------------------------------------------------------- without Redis

  /** The count of the Wait that a goroutine is sleeping in. */
  ghost function Sleeping(w: Waiter): real { if w.place.Drain? then w.count as real else 0.0 }

  lemma NoClientBefore(p: Params, s: Sys, steps: seq<Step>, i: nat)
    requires Start(p, s) && CanRun(p, s, steps) && i <= |steps| && NoClient(Run(p, s, steps))
    ensures CanRun(p, s, steps[..i]) && NoClient(Run(p, s, steps[..i]))
    decreases |steps|
  {
    hide Do, Enabled, NoClient;
    PrefixRuns(p, s, steps, i);
    if i == |steps| {
      assert steps[..i] == steps;
    } else {
      var before := steps[..|steps| - 1];
      assert before[..i] == steps[..i];
      RunInv(p, s, before);
      StepNoClient(p, Run(p, s, before), steps[|steps| - 1]);
      NoClientBefore(p, s, before, i);
    }
  }

  lemma OnlyBursts(p: Params, s: Sys)
    requires Sane(s) && Capped(p, s) && NoClient(s)
    ensures Sum(s.waiters, Pending) == Sum(s.waiters, Sleeping)
    ensures Sum(s.buckets, ReadyOf(p, s.now)) <= |s.buckets| as real * p.capacity
  {
    forall w | w in s.waiters ensures Pending(w) == Sleeping(w) { assert SaneWaiter(s.buckets, w); }
    SumSame(s.waiters, Pending, Sleeping);
    forall k | 0 <= k < |s.buckets| ensures ReadyOf(p, s.now)(s.buckets[k]) <= p.capacity {
      assert s.buckets[k] in s.buckets;
    }
    SumAtMost(s.buckets, ReadyOf(p, s.now), p.capacity);
  }

  /** Without Redis any window releases at most one burst in each proxy there was, what its goroutines were sleeping for
      already, and the rate over the window, once for each goroutine and proxy. */
  lemma WindowWithoutRedis(p: Params, s: Sys, steps: seq<Step>, i: nat)
    requires p.rate > 0.0 && Start(p, s) && CanRun(p, s, steps) && i <= |steps| && NoClient(Run(p, s, steps))
    ensures CanRun(p, s, steps[..i])
    ensures var a, b := Run(p, s, steps[..i]), Run(p, s, steps);
      b.released - a.released <= |a.buckets| as real * p.capacity + Sum(a.waiters, Sleeping)
        + RatesOver(p, |s.waiters| + |b.buckets|, b.now - a.now)
  {
    hide Do, Enabled, Sane, Capped, NoClient, Timed, Metered, RatesOver;
    ReleasedInAnyWindow(p, s, steps, i);
    NoClientBefore(p, s, steps, i);
    NoClientNoGrants(p, s, steps);
    NoClientNoGrants(p, s, steps[..i]);
    RunSaneAndTimed(p, s, steps[..i]);
    RunCapped(p, s, steps[..i]);
    OnlyBursts(p, Run(p, s, steps[..i]));
  }

  /** One proxy with one caller: however long both were idle before, one burst, twice the rate over the window, and the
      count of the Wait it was sleeping in. */
  lemma SoloWindowWithoutRedis(p: Params, s: Sys, steps: seq<Step>, i: nat)
    requires p.rate > 0.0 && Start(p, s) && CanRun(p, s, steps) && i <= |steps| && NoClient(Run(p, s, steps))
    requires |s.waiters| == 1 && |Run(p, s, steps).buckets| == 1
    ensures CanRun(p, s, steps[..i]) && |Run(p, s, steps[..i]).waiters| == 1
    ensures var a, b := Run(p, s, steps[..i]), Run(p, s, steps);
      b.released - a.released <= p.capacity + RatesOver(p, 2, b.now - a.now)
        + if a.waiters[0].place.Drain? then a.waiters[0].count as real else 0.0
  {
    hide Do, Enabled, NoClient, RatesOver;
    WindowWithoutRedis(p, s, steps, i);
    RunKeepsWaiters(p, s, steps[..i]);
    RunWithin(p, s, steps, i);
    var a := Run(p, s, steps[..i]);
    assert a.waiters == [a.waiters[0]];
    assert Sum(a.waiters[..0], Sleeping) == 0.0;
    assert |a.buckets| as real * p.capacity <= p.capacity;
  }
}
