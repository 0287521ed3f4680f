// Runs that show where the bounds on a session's bandwidth are reached, and when nothing is released at all.
module BucketRuns {
  import opened Basics
  import opened TokenScript
  import opened BucketSystem
  import opened BucketWindows

  // ---------------------------------------------------------------- nothing to give

  lemma StepReleases(p: Params, s: Sys, step: Step)
    requires Enabled(p, s, step)
    ensures Do(p, s, step).released >= s.released
  {
  }

  lemma NoCapacityNoGrant(p: Params, s: Sys, step: Step)
    requires LimitOf(p).cap == 0 && Metered(p, s) && Enabled(p, s, step)
    ensures Do(p, s, step).granted == s.granted
  {
  }

  lemma {:induction false} NoCapacityNoGrants(p: Params, s: Sys, steps: seq<Step>)
    requires LimitOf(p).cap == 0 && Start(p, s) && CanRun(p, s, steps)
    ensures Run(p, s, steps).granted == 0.0 <= Run(p, s, steps).released
  {
    hide Do, Enabled, Metered;
    if steps != [] {
      var before := steps[..|steps| - 1];
      NoCapacityNoGrants(p, s, before);
      RunMetered(p, s, before);
      NoCapacityNoGrant(p, Run(p, s, before), steps[|steps| - 1]);
      StepReleases(p, Run(p, s, before), steps[|steps| - 1]);
    }
  }

  ghost predicate ReleasesNothing(p: Params, s: Sys, steps: seq<Step>)
  {
    Start(p, s) && CanRun(p, s, steps) && (forall step | step in steps :: Reaches(step)) ==>
      Run(p, s, steps).released == 0.0
  }

  lemma OneByteReleased(p: Params) returns (s: Sys, steps: seq<Step>)
    requires p.rate >= 1.0 && p.capacity >= 1.0
    ensures !ReleasesNothing(p, s, steps)
  {
    s := Sys(0.0, 0.0, None, 0.0, [], [NEW_WAITER], 0.0, 0.0, 0.0);
    steps := Extend(p, s, [], NewBucket(true));
    steps := Extend(p, s, steps, Enter(0, 0, 1));
    steps := Extend(p, s, steps, Stamp(0, 0));
    steps := Extend(p, s, steps, Script(0, false, false));
    assert Run(p, s, steps).waiters[0].place.granted >= 1.0;
    steps := Extend(p, s, steps, Settle(0));
  }

  /** While Redis answers, a session releases no byte in any run exactly when its rate or its capacity is below one
      byte. */
  lemma NothingReleasedIff(p: Params)
    ensures (forall s, steps :: ReleasesNothing(p, s, steps)) <==> p.rate < 1.0 || p.capacity < 1.0
  {
    if p.rate < 1.0 || p.capacity < 1.0 {
      assert LimitOf(p).cap == 0;
      forall s, steps ensures ReleasesNothing(p, s, steps) {
        if Start(p, s) && CanRun(p, s, steps) && forall step | step in steps :: Reaches(step) {
          NoCapacityNoGrants(p, s, steps);
          Conservation(p, s, steps);
        }
      }
    } else {
      var s, steps := OneByteReleased(p);
    }
  }

  // ---------------------------------------------------------------- late calls with one clock

  function Flat(r: nat): Params { RawParams(r as real, r as real) }

  const UP := Bucket(0.0, 0.0, true, true, false, 0, 0.0, 0.0, 0.0, 0)

  /** A run on one clock, one step longer. */
  lemma Next(p: Params, s: Sys, steps: seq<Step>, step: Step) returns (longer: seq<Step>)
    requires CanRun(p, s, steps) && OneClock(p, s, steps) && Enabled(p, Run(p, s, steps), step)
    requires step.Stamp? ==> step.nowMs == Ms(Run(p, s, steps).now)
    ensures longer == steps + [step] && CanRun(p, s, longer) && OneClock(p, s, longer)
    ensures Run(p, s, longer) == Do(p, Run(p, s, steps), step)
  {
    longer := Extend(p, s, steps, step);
    assert longer[..|longer| - 1] == steps;
    hide Do, Enabled;
  }

  /** Goroutine i waits for a reply to a call it sent at the start. */
  predicate OnItsWay(r: nat, w: Waiter)
  {
    w.place == Sent(r as real, 0) && w.bucket == 0
  }

  /** d milliseconds after the start: the calls of goroutines k to n - 1, sent at the start, are still on their way, the
      bucket has just been emptied, and the goroutines after n + k have not called yet. */
  ghost predicate StillOnTheWay(r: nat, n: nat, d: nat, k: nat, s: Sys)
  {
    && k <= n && s.now == Seconds(d) && |s.waiters| == 2 * n + 1 && s.buckets == [UP]
    && s.key == Some(Hash(0.0, d))
    && (forall i | k <= i < n :: OnItsWay(r, s.waiters[i]))
    && (forall i | n + k < i <= 2 * n :: s.waiters[i] == NEW_WAITER)
  }

  lemma InMs(d: nat)
    ensures Ms(Seconds(d)) == d
  {
  }

  /** One of these calls arrives, and sets the key's clock back to the start. */
  lemma Arrives(r: nat, n: nat, d: nat, k: nat, s: Sys)
    requires 0 < r && k < n && StillOnTheWay(r, n, d, k, s)
    ensures Enabled(Flat(r), s, Script(k, false, false))
    ensures var t := Do(Flat(r), s, Script(k, false, false));
      && t.key == Some(Hash(0.0, 0)) && t.granted == s.granted && t.now == s.now && t.buckets == s.buckets
      && |t.waiters| == |s.waiters| && t.waiters == s.waiters[k := t.waiters[k]]
      && Flown(t.waiters) == Flown(s.waiters) + d
  {
    assert OnItsWay(r, s.waiters[k]);
    StepFlown(Flat(r), s, Script(k, false, false));
    InMs(d);
    hide Flown, Ms, Seconds;
  }

  /** What a call d milliseconds after the start is granted: the whole bucket of an unused key, and what was earned
      again from the start on when the key's clock was set back. */
  function Regained(r: nat, d: nat, key: Option<Hash>): real
  {
    if key == None then r as real else Earned(LimitOf(Flat(r)), d)
  }

  lemma GrantedAgain(r: nat, d: nat, i: nat, s: Sys)
    requires 0 < r && d <= 1000 && i < |s.waiters| && s.waiters[i].place == Sent(r as real, d) && s.now == Seconds(d)
    requires |s.buckets| == 1 && s.waiters[i].bucket == 0 && (s.key == None || s.key == Some(Hash(0.0, 0)))
    ensures Enabled(Flat(r), s, Script(i, false, false))
    ensures var t := Do(Flat(r), s, Script(i, false, false));
      && t.key == Some(Hash(0.0, d)) && t.granted == s.granted + Regained(r, d, s.key) && t.now == s.now
      && t.buckets == s.buckets && |t.waiters| == |s.waiters| && t.waiters == s.waiters[i := t.waiters[i]]
      && Flown(t.waiters) == Flown(s.waiters)
  {
    WholeEarned(r, d);
    StepFlown(Flat(r), s, Script(i, false, false));
    InMs(d);
    hide Flown, Ms, Seconds, Earned;
  }

  lemma WholeEarned(r: nat, d: nat)
    requires d <= 1000
    ensures var l := LimitOf(Flat(r)); l.cap == l.rate == r && 0.0 <= Earned(l, d) <= r as real
  {
  }

  /** A goroutine that has not called yet asks for a bucket's worth. */
  lemma Polls(r: nat, d: nat, s: Sys, steps: seq<Step>, i: nat) returns (longer: seq<Step>)
    requires 0 < r && d <= 1000 && CanRun(Flat(r), s, steps) && OneClock(Flat(r), s, steps)
    requires var a := Run(Flat(r), s, steps);
      && i < |a.waiters| && a.waiters[i] == NEW_WAITER && a.now == Seconds(d) && a.buckets == [UP]
      && (a.key == None || a.key == Some(Hash(0.0, 0)))
    ensures longer == steps + [Enter(i, 0, r), Stamp(i, d), Script(i, false, false)]
    ensures CanRun(Flat(r), s, longer) && OneClock(Flat(r), s, longer)
    ensures var a, b := Run(Flat(r), s, steps), Run(Flat(r), s, longer);
      && b.key == Some(Hash(0.0, d)) && b.granted == a.granted + Regained(r, d, a.key) && b.now == a.now
      && b.buckets == a.buckets && |b.waiters| == |a.waiters| && b.waiters == a.waiters[i := b.waiters[i]]
      && Flown(b.waiters) == Flown(a.waiters)
  {
    var p := Flat(r);
    hide CanRun, Run, OneClock, Flown, Regained, Seconds, Ms;
    InMs(d);
    var entered := Next(p, s, steps, Enter(i, 0, r));
    StepFlown(p, Run(p, s, steps), Enter(i, 0, r));
    var stamped := Next(p, s, entered, Stamp(i, d));
    StepFlown(p, Run(p, s, entered), Stamp(i, d));
    var sent := Run(p, s, stamped);
    assert sent.waiters[i].place == Sent(r as real, d);
    hide Do, Enabled;
    GrantedAgain(r, d, i, sent);
    longer := Next(p, s, stamped, Script(i, false, false));
  }

  /** The milliseconds that m late calls took together. */
  function Lateness(d: nat, m: nat): nat { d * m }

  lemma OneLateLess(r: nat, d: nat, m: nat)
    ensures Lateness(d, 0) == 0 && Earned(LimitOf(Flat(r)), 0) == 0.0
    ensures m > 0 ==> var l := LimitOf(Flat(r));
      && Lateness(d, m) == d + Lateness(d, m - 1)
      && Earned(l, Lateness(d, m)) == Earned(l, d) + Earned(l, Lateness(d, m - 1))
  {
    if m > 0 {
      assert d * m == d + d * (m - 1);
      EarnedAdd(LimitOf(Flat(r)), d, Lateness(d, m - 1));
    }
    hide LimitOf;
  }

  /** A late call arrives, and the next goroutine is granted the time again. */
  lemma LateRound(r: nat, n: nat, d: nat, k: nat, s: Sys, steps: seq<Step>) returns (longer: seq<Step>)
    requires 0 < r && d <= 1000 && k < n && CanRun(Flat(r), s, steps) && OneClock(Flat(r), s, steps)
    requires StillOnTheWay(r, n, d, k, Run(Flat(r), s, steps))
    ensures |steps| <= |longer| && longer[..|steps|] == steps
    ensures CanRun(Flat(r), s, longer) && OneClock(Flat(r), s, longer)
    ensures var a, b := Run(Flat(r), s, steps), Run(Flat(r), s, longer);
      && StillOnTheWay(r, n, d, k + 1, b) && a.now == b.now && b.granted == a.granted + Earned(LimitOf(Flat(r)), d)
      && Flown(b.waiters) == Flown(a.waiters) + d
  {
    hide Do, Enabled, Flown, Earned, Seconds, LimitOf, CanRun, Run, OneClock;
    Arrives(r, n, d, k, Run(Flat(r), s, steps));
    var arrived := Next(Flat(r), s, steps, Script(k, false, false));
    longer := Polls(r, d, s, arrived, n + 1 + k);
  }

  lemma {:induction false} LateCallsArrive(r: nat, n: nat, d: nat, k: nat, s: Sys, steps: seq<Step>)
    returns (longer: seq<Step>)
    requires 0 < r && d <= 1000 && CanRun(Flat(r), s, steps) && OneClock(Flat(r), s, steps)
    requires StillOnTheWay(r, n, d, k, Run(Flat(r), s, steps))
    ensures |steps| <= |longer| && longer[..|steps|] == steps
    ensures CanRun(Flat(r), s, longer) && OneClock(Flat(r), s, longer)
    ensures var a, b := Run(Flat(r), s, steps), Run(Flat(r), s, longer);
      && a.now == b.now && b.granted == a.granted + Earned(LimitOf(Flat(r)), Lateness(d, n - k))
      && Flown(b.waiters) == Flown(a.waiters) + Lateness(d, n - k)
    decreases n - k
  {
    OneLateLess(r, d, n - k);
    hide Lateness, Flown, Earned, Seconds, LimitOf, CanRun, Run, OneClock, StillOnTheWay;
    longer := steps;
    if k < n {
      var round := LateRound(r, n, d, k, s, steps);
      longer := LateCallsArrive(r, n, d, k + 1, s, round);
      assert round[..|steps|] == steps;
    }
  }

  /** Goroutines before i have sent their calls at the start; the key is unused. */
  ghost predicate Sending(r: nat, n: nat, i: nat, s: Sys)
  {
    && s.now == 0.0 && |s.waiters| == 2 * n + 1 && s.buckets == [UP] && s.key == None
    && forall j | 0 <= j < |s.waiters| :: if j < i then OnItsWay(r, s.waiters[j]) else s.waiters[j] == NEW_WAITER
  }

  lemma {:induction false} AllSend(r: nat, n: nat, i: nat, s: Sys) returns (steps: seq<Step>)
    requires 0 < r && i <= n && Start(Flat(r), s) && s.start == 0.0 && s.key == None && |s.waiters| == 2 * n + 1
    ensures CanRun(Flat(r), s, steps) && OneClock(Flat(r), s, steps)
    ensures Sending(r, n, i, Run(Flat(r), s, steps))
  {
    var p := Flat(r);
    if i == 0 {
      forall j | 0 <= j < |s.waiters| ensures s.waiters[j] == NEW_WAITER { assert s.waiters[j] in s.waiters; }
      steps := Next(p, s, [], NewBucket(true));
    } else {
      var before := AllSend(r, n, i - 1, s);
      hide CanRun, Run, OneClock;
      var entered := Next(p, s, before, Enter(i - 1, 0, r));
      steps := Next(p, s, entered, Stamp(i - 1, 0));
    }
  }

  lemma TimePasses(r: nat, n: nat, d: nat, s: Sys, sent: seq<Step>) returns (ticked: seq<Step>)
    requires 0 < r && CanRun(Flat(r), s, sent) && OneClock(Flat(r), s, sent)
    requires Sending(r, n, n, Run(Flat(r), s, sent))
    ensures CanRun(Flat(r), s, ticked) && OneClock(Flat(r), s, ticked)
    ensures var a := Run(Flat(r), s, ticked); Sending(r, n, n, a.(now := 0.0)) && a.now == Seconds(d)
  {
    hide CanRun, Run, OneClock;
    ticked := Next(Flat(r), s, sent, Tick(Seconds(d)));
  }

  lemma FirstPoll(r: nat, n: nat, d: nat, s: Sys, ticked: seq<Step>) returns (first: seq<Step>)
    requires 0 < r && d <= 1000 && CanRun(Flat(r), s, ticked) && OneClock(Flat(r), s, ticked)
    requires var a := Run(Flat(r), s, ticked); Sending(r, n, n, a.(now := 0.0)) && a.now == Seconds(d)
    ensures |ticked| <= |first| && first[..|ticked|] == ticked
    ensures CanRun(Flat(r), s, first) && OneClock(Flat(r), s, first)
    ensures var a, b := Run(Flat(r), s, ticked), Run(Flat(r), s, first);
      && StillOnTheWay(r, n, d, 0, b) && b.now == a.now && b.granted == a.granted + r as real
      && Flown(b.waiters) == Flown(a.waiters)
  {
    hide CanRun, Run, OneClock, Flown, Do, Enabled, Seconds;
    first := Polls(r, d, s, ticked, n);
  }

  lemma MoreThanBurst(r: nat, a: Sys, b: Sys, late: nat)
    requires 0 < r && a.now == b.now && Flown(b.waiters) == Flown(a.waiters) + late
    requires b.granted == a.granted + r as real + Earned(LimitOf(Flat(r)), late)
    ensures var l := LimitOf(Flat(r));
      && Elapsed(a, b) == late && b.granted - a.granted == l.cap as real + Earned(l, late)
      && (late > 0 ==> b.granted - a.granted > l.cap as real)
  {
    hide Ms, Flown;
  }

  lemma LateWindow(r: nat, n: nat, d: nat, s: Sys, sent: seq<Step>) returns (steps: seq<Step>, i: nat)
    requires 0 < r && d <= 1000 && CanRun(Flat(r), s, sent) && OneClock(Flat(r), s, sent)
    requires Sending(r, n, n, Run(Flat(r), s, sent))
    ensures CanRun(Flat(r), s, steps) && OneClock(Flat(r), s, steps) && i <= |steps| && CanRun(Flat(r), s, steps[..i])
    ensures var l, a, b := LimitOf(Flat(r)), Run(Flat(r), s, steps[..i]), Run(Flat(r), s, steps);
      && a.now == b.now && b.granted == a.granted + r as real + Earned(l, Lateness(d, n))
      && Flown(b.waiters) == Flown(a.waiters) + Lateness(d, n)
  {
    hide Lateness, CanRun, Run, OneClock, Flown, Earned, LimitOf, Sending, Seconds, StillOnTheWay;
    var ticked := TimePasses(r, n, d, s, sent);
    var first := FirstPoll(r, n, d, s, ticked);
    i := |ticked|;
    steps := LateCallsArrive(r, n, d, 0, s, first);
    assert steps[..i] == ticked;
  }

  function Unused(n: nat): Sys { Sys(0.0, 0.0, None, 0.0, [], seq(2 * n + 1, _ => NEW_WAITER), 0.0, 0.0, 0.0) }

  lemma StartsUnused(p: Params, n: nat)
    ensures Start(p, Unused(n)) && Unused(n).start == 0.0 && Unused(n).key == None && |Unused(n).waiters| == 2 * n + 1
  {
  }

  /** With one clock, n calls that reach the script d milliseconds late give the session, in no time at all, a burst and
      n times what is earned in d milliseconds: the bound of GrantsInWindow is reached for every number of late
      calls. */
  lemma LateCallsEarnAgain(r: nat, n: nat, d: nat) returns (s: Sys, steps: seq<Step>, i: nat)
    requires 0 < r && d <= 1000
    ensures Start(Flat(r), s) && CanRun(Flat(r), s, steps) && OneClock(Flat(r), s, steps)
    ensures i <= |steps| && CanRun(Flat(r), s, steps[..i])
    ensures var l, a, b := LimitOf(Flat(r)), Run(Flat(r), s, steps[..i]), Run(Flat(r), s, steps);
      && a.now == b.now && Elapsed(a, b) == Lateness(d, n)
      && b.granted - a.granted == l.cap as real + Earned(l, Lateness(d, n))
      && (Lateness(d, n) > 0 ==> b.granted - a.granted > l.cap as real)
  {
    s := Unused(n);
    StartsUnused(Flat(r), n);
    hide *;
    var sent := AllSend(r, n, n, s);
    steps, i := LateWindow(r, n, d, s, sent);
    MoreThanBurst(r, Run(Flat(r), s, steps[..i]), Run(Flat(r), s, steps), Lateness(d, n));
  }
}
