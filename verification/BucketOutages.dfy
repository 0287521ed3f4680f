// How often goroutines can sleep in outages, and with it what is released over time in the time alone.
module BucketOutages {
  import opened Basics
  import opened TokenScript
  import opened BucketSystem
  import opened BucketWindows

  // ---------------------------------------------------------------- outages end at a probe's tick

  /** A bucket's outages end at least a ticker's period apart. */
  ghost predicate TickedBucket(s: Sys, b: Bucket)
  {
    && PROBE_PERIOD * b.answers as real <= s.now - s.start
    && (b.probes > 0 ==> b.probedAt <= s.now && PROBE_PERIOD * b.answers as real <= b.probedAt - s.start)
  }

  ghost predicate Ticked(s: Sys)
  {
    forall b | b in s.buckets :: TickedBucket(s, b)
  }

  lemma StepTicked(p: Params, s: Sys, step: Step)
    requires Stamped(s) && Probed(s) && Ticked(s) && Enabled(p, s, step)
    ensures Ticked(Do(p, s, step))
  {
    var t := Do(p, s, step);
    forall b | 0 <= b < |t.buckets| ensures TickedBucket(t, t.buckets[b]) {
      if b < |s.buckets| { assert TickedBucket(s, s.buckets[b]); }
    }
  }

  // ---------------------------------------------------------------- one sleep after a call for each outage

  /** The degraded sleeps after a call that took effect, with the one going on. */
  function Sleeps(w: Waiter): nat { w.naps + if w.place.Drain? && w.flew then 1 else 0 }

  /** A goroutine has slept after a call at most once in each outage of its proxy, and not yet in one that begins
      while it is still polling. */
  ghost predicate Paced(b: Bucket, w: Waiter)
  {
    && Sleeps(w) <= b.answers + 1
    && (b.redisOK ==> Sleeps(w) <= b.answers)
    && (!w.place.Drain? && (w.flew || !w.place.Idle?) ==> w.naps <= b.answers)
  }

  ghost predicate PacedAt(s: Sys, home: nat -> nat, i: nat)
    requires i < |s.waiters|
  {
    if home(i) < |s.buckets| then
      Paced(s.buckets[home(i)], s.waiters[i]) && (!s.waiters[i].place.Idle? ==> s.waiters[i].bucket == home(i))
    else
      s.waiters[i] == NEW_WAITER
  }

  ghost predicate AllPaced(s: Sys, home: nat -> nat)
  {
    forall i | 0 <= i < |s.waiters| :: PacedAt(s, home, i)
  }

  /** A goroutine runs on one proxy. */
  ghost predicate Home(step: Step, home: nat -> nat)
  {
    step.Enter? ==> step.b == home(step.i)
  }

  /** A step marks a bucket down, or leaves its flag alone, or counts an answer. */
  lemma FlagsMove(p: Params, s: Sys, step: Step, b: nat)
    requires Enabled(p, s, step) && b < |s.buckets|
    ensures var t := Do(p, s, step);
      && b < |t.buckets|
      && var was, now := s.buckets[b], t.buckets[b];
         (now.answers == was.answers && (now.redisOK ==> was.redisOK)) || now.answers == was.answers + 1
  {
  }

  lemma OthersStepPaced(p: Params, s: Sys, step: Step, home: nat -> nat, i: nat)
    requires Enabled(p, s, step) && i < |s.waiters| && PacedAt(s, home, i)
    requires step.Tick? || step.NewBucket? || step.ProbeAnswered? || step.i != i
    ensures |Do(p, s, step).waiters| == |s.waiters| && PacedAt(Do(p, s, step), home, i)
  {
    assert |Do(p, s, step).waiters| == |s.waiters| && Do(p, s, step).waiters[i] == s.waiters[i];
    if home(i) < |s.buckets| {
      FlagsMove(p, s, step, home(i));
      hide Do, Enabled;
    }
  }

  lemma OwnStepPaced(p: Params, s: Sys, step: Step, home: nat -> nat, i: nat)
    requires Probed(s) && Enabled(p, s, step) && Home(step, home) && i < |s.waiters| && PacedAt(s, home, i)
    requires !step.Tick? && !step.NewBucket? && !step.ProbeAnswered? && step.i == i
    ensures |Do(p, s, step).waiters| == |s.waiters| && PacedAt(Do(p, s, step), home, i)
  {
    hide Granted, Accrued, Credit, Count, SleepFor, CallMade, KeyMet, InFlight, Ms, LimitOf;
  }

  lemma StepPacedAt(p: Params, s: Sys, step: Step, home: nat -> nat, i: nat)
    requires Probed(s) && Enabled(p, s, step) && Home(step, home) && i < |s.waiters| && PacedAt(s, home, i)
    ensures |Do(p, s, step).waiters| == |s.waiters| && PacedAt(Do(p, s, step), home, i)
  {
    hide *;
    if step.Tick? || step.NewBucket? || step.ProbeAnswered? || step.i != i {
      OthersStepPaced(p, s, step, home, i);
    } else {
      OwnStepPaced(p, s, step, home, i);
    }
  }

  lemma StepPaced(p: Params, s: Sys, step: Step, home: nat -> nat)
    requires Probed(s) && AllPaced(s, home) && Enabled(p, s, step) && Home(step, home)
    ensures AllPaced(Do(p, s, step), home)
  {
    forall i | 0 <= i < |s.waiters|
      ensures |Do(p, s, step).waiters| == |s.waiters| && PacedAt(Do(p, s, step), home, i)
    {
      StepPacedAt(p, s, step, home, i);
    }
    hide Do, Enabled;
  }

  lemma {:induction false} RunPaced(p: Params, s: Sys, steps: seq<Step>, home: nat -> nat)
    requires Start(p, s) && CanRun(p, s, steps) && OneClock(p, s, steps)
    requires forall step | step in steps :: Home(step, home)
    ensures AllPaced(Run(p, s, steps), home) && Ticked(Run(p, s, steps))
  {
    hide Do, Enabled;
    if steps == [] {
      forall i | 0 <= i < |s.waiters| ensures PacedAt(s, home, i) { assert s.waiters[i] in s.waiters; }
    } else {
      var before, step := steps[..|steps| - 1], steps[|steps| - 1];
      assert step in steps && forall x | x in before :: x in steps;
      RunPaced(p, s, before, home);
      RunInv(p, s, before);
      RunStamped(p, s, before);
      StepTicked(p, Run(p, s, before), step);
      StepPaced(p, Run(p, s, before), step, home);
    }
  }

  lemma {:induction false} NapsAtMost(ws: seq<Waiter>, k: nat)
    requires forall w | w in ws :: w.naps <= k
    ensures Naps(ws) <= |ws| * k
  {
    if ws != [] {
      NapsAtMost(ws[..|ws| - 1], k);
    }
  }

  /** The answers there can have been by now. */
  function Outages(t: Sys): nat
    requires t.start <= t.now
  {
    ((t.now - t.start) / PROBE_PERIOD).Floor
  }

  lemma NapsOverTime(t: Sys, home: nat -> nat)
    requires AllPaced(t, home) && Ticked(t) && t.start <= t.now
    ensures Naps(t.waiters) <= |t.waiters| * (Outages(t) + 1)
  {
    forall i | 0 <= i < |t.waiters| ensures t.waiters[i].naps <= Outages(t) + 1 {
      assert PacedAt(t, home, i);
      if home(i) < |t.buckets| { assert TickedBucket(t, t.buckets[home(i)]); }
    }
    NapsAtMost(t.waiters, Outages(t) + 1);
  }

  /** With one clock and every goroutine on its own proxy: one burst and the rate over the elapsed time, once for the
      script and once for every goroutine and proxy, but for two milliseconds a goroutine, one for the script, and one
      for a goroutine every five seconds. */
  lemma ReleasedInTime(p: Params, s: Sys, steps: seq<Step>, home: nat -> nat)
    requires p.rate > 0.0 && Start(p, s) && CanRun(p, s, steps) && OneClock(p, s, steps)
    requires forall step | step in steps :: Home(step, home)
    ensures var n, t := |s.waiters|, Run(p, s, steps);
      t.released <= p.capacity + RatesOver(p, n + |t.buckets| + 1, t.now - t.start) + RatesOver(p, 2 * n + 1, 0.001)
                  + RatesOver(p, n, (t.now - t.start) / 5000.0)
  {
    hide Do, Enabled, Naps, Credit, RatesOver, AllPaced, Ticked, CanRun, Run, OneClock, Home, Budget;
    var t := Run(p, s, steps);
    ReleasedOverTime(p, s, steps);
    RunKeepsWaiters(p, s, steps);
    RunStamped(p, s, steps);
    RunPaced(p, s, steps, home);
    NapsOverTime(t, home);
    BudgetInTime(p, t, |s.waiters|, Outages(t));
  }

  lemma BudgetInTime(p: Params, t: Sys, n: nat, outages: nat)
    requires |t.waiters| == n && t.start <= t.now && outages as real <= (t.now - t.start) / PROBE_PERIOD
    requires Naps(t.waiters) <= n * (outages + 1)
    ensures Credit(p, Budget(t)) <= RatesOver(p, n + |t.buckets| + 1, t.now - t.start) + RatesOver(p, 2 * n + 1, 0.001)
                                  + RatesOver(p, n, (t.now - t.start) / 5000.0)
  {
    var d := t.now - t.start;
    RoundingInTime(n, Naps(t.waiters), outages, d);
    assert Budget(t) == (n + |t.buckets| + 1) as real * d + Seconds(Naps(t.waiters) + n + 1) by { hide Naps; }
    hide Budget, Naps, Seconds;
    CreditOfThree(p, Budget(t), n + |t.buckets| + 1, d, 2 * n + 1, n, d / 5000.0);
  }

  lemma RoundingInTime(n: nat, naps: nat, outages: nat, d: real)
    requires naps <= n * (outages + 1) && outages as real <= d / PROBE_PERIOD
    ensures Seconds(naps + n + 1) <= (2 * n + 1) as real * 0.001 + n as real * (d / 5000.0)
  {
    TimesN(n, outages as real, d / PROBE_PERIOD);
    assert n as real * (d / PROBE_PERIOD) / 1000.0 == n as real * (d / 5000.0);
    assert (n * (outages + 1)) as real == n as real * outages as real + n as real;
  }

  lemma CreditOfThree(p: Params, all: real, k: nat, d: real, m: nat, n: nat, e: real)
    requires all <= k as real * d + m as real * 0.001 + n as real * e
    ensures Credit(p, all) <= RatesOver(p, k, d) + RatesOver(p, m, 0.001) + RatesOver(p, n, e)
  {
    CreditGrows(p, all, k as real * d + m as real * 0.001 + n as real * e);
  }

  lemma {:induction false} OneHome(p: Params, s: Sys, steps: seq<Step>)
    requires CanRun(p, s, steps) && |Run(p, s, steps).buckets| <= 1
    ensures forall step | step in steps :: Home(step, (i: nat) => 0)
  {
    hide Do, Enabled;
    if steps != [] {
      var before, step := steps[..|steps| - 1], steps[|steps| - 1];
      BucketsStay(p, Run(p, s, before), step);
      OneHome(p, s, before);
      assert steps == before + [step];
    }
  }

  lemma BucketsStay(p: Params, s: Sys, step: Step)
    requires Enabled(p, s, step)
    ensures |s.buckets| <= |Do(p, s, step).buckets| && (step.Enter? ==> step.b < |s.buckets|)
  {
  }

  /** One proxy with n goroutines: one burst and n + 2 rates. */
  lemma OneProxyReleasedOverTime(p: Params, s: Sys, steps: seq<Step>)
    requires p.rate > 0.0 && Start(p, s) && CanRun(p, s, steps) && OneClock(p, s, steps)
    requires |Run(p, s, steps).buckets| == 1
    ensures var n, t := |s.waiters|, Run(p, s, steps);
      t.released <= p.capacity + RatesOver(p, n + 2, t.now - t.start) + RatesOver(p, 2 * n + 1, 0.001)
                  + RatesOver(p, n, (t.now - t.start) / 5000.0)
  {
    hide Do, Enabled, RatesOver;
    OneHome(p, s, steps);
    ReleasedInTime(p, s, steps, (i: nat) => 0);
  }
}
