// What a session is granted and released in any window of any run, by its clocks and over time.
module BucketWindows {
  import opened Basics
  import opened TokenScript
  import opened BucketSystem

  // ---------------------------------------------------------------- by the script's clock

  /** How far a script call moves the key's clock forward; a key that has lapsed counts for its whole life. */
  function Move(s: Sys, w: Waiter, expired: bool): nat
    requires w.place.Sent?
  {
    if expired then TTL_MS else Advance(s.key, w.place.stamp)
  }

  /** The forward movement of the key's clock in the window from step i on, after the window's first call; None when
      the window has no call. */
  ghost function Moved(p: Params, s: Sys, steps: seq<Step>, i: nat): Option<nat>
    requires CanRun(p, s, steps) && i <= |steps|
    decreases |steps|
  {
    if i == |steps| then None
    else
      var before, step := steps[..|steps| - 1], steps[|steps| - 1];
      var moved, a := Moved(p, s, before, i), Run(p, s, before);
      if !step.Script? then moved
      else Some(if moved.None? then 0 else moved.value + Move(a, a.waiters[step.i], step.expired))
  }

  lemma CallSpends(p: Params, s: Sys, i: nat, expired: bool, lost: bool)
    requires Metered(p, s) && Enabled(p, s, Script(i, expired, lost))
    ensures var l, t := LimitOf(p), DoScript(p, s, i, expired, lost);
      && t.granted - s.granted + Balance(l, t.key) <= l.cap as real
      && t.granted - s.granted + Balance(l, t.key) <= Balance(l, s.key) + Earned(l, Move(s, s.waiters[i], expired))
  {
    CallAccounts(LimitOf(p), KeyMet(s, expired), CallMade(p, s.waiters[i]));
  }

  lemma {:induction false} PrefixRuns(p: Params, s: Sys, steps: seq<Step>, i: nat)
    requires CanRun(p, s, steps) && i <= |steps|
    ensures CanRun(p, s, steps[..i])
    decreases |steps|
  {
    hide Do, Enabled;
    if i == |steps| {
      assert steps[..i] == steps;
    } else {
      assert steps[..|steps| - 1][..i] == steps[..i];
      PrefixRuns(p, s, steps[..|steps| - 1], i);
    }
  }

  lemma RunMetered(p: Params, s: Sys, steps: seq<Step>)
    requires Start(p, s) && CanRun(p, s, steps)
    ensures Metered(p, Run(p, s, steps))
  {
  }

  /** What the window from a to b was granted, given how far its calls moved the clock. */
  ghost predicate Spent(l: Limit, a: Sys, b: Sys, moved: Option<nat>)
  {
    match moved
    case None => b.granted == a.granted && b.key == a.key
    case Some(ms) => b.granted - a.granted + Balance(l, b.key) <= l.cap as real + Earned(l, ms)
  }

  lemma StepSpends(p: Params, a: Sys, s: Sys, step: Step, moved: Option<nat>)
    requires Metered(p, a) && Metered(p, s) && Enabled(p, s, step) && Spent(LimitOf(p), a, s, moved)
    ensures !step.Script? ==> Spent(LimitOf(p), a, Do(p, s, step), moved)
    ensures step.Script? ==>
      Spent(LimitOf(p), a, Do(p, s, step),
            Some(if moved.None? then 0 else moved.value + Move(s, s.waiters[step.i], step.expired)))
  {
    if step.Script? {
      CallSpends(p, s, step.i, step.expired, step.lost);
      hide DoScript, Move;
      if moved.Some? { EarnedAdd(LimitOf(p), moved.value, Move(s, s.waiters[step.i], step.expired)); }
      hide Earned;
    }
  }

  /** In any window of any run, with any clocks, the script grants at most one burst and what its clock earned
      after the window's first call. */
  lemma {:induction false} GrantsByClock(p: Params, s: Sys, steps: seq<Step>, i: nat)
    requires Start(p, s) && CanRun(p, s, steps) && i <= |steps|
    ensures CanRun(p, s, steps[..i])
    ensures Spent(LimitOf(p), Run(p, s, steps[..i]), Run(p, s, steps), Moved(p, s, steps, i))
    decreases |steps|
  {
    hide Do, Enabled, Spent, Move;
    PrefixRuns(p, s, steps, i);
    if i == |steps| {
      assert steps[..i] == steps;
      NothingSpent(LimitOf(p), Run(p, s, steps));
    } else {
      var before := steps[..|steps| - 1];
      assert before[..i] == steps[..i];
      GrantsByClock(p, s, before, i);
      RunMetered(p, s, before);
      RunMetered(p, s, steps[..i]);
      StepSpends(p, Run(p, s, steps[..i]), Run(p, s, before), steps[|steps| - 1], Moved(p, s, before, i));
    }
  }

  lemma NothingSpent(l: Limit, s: Sys)
    ensures Spent(l, s, s, None)
  {
  }

  // ---------------------------------------------------------------- stamps that arrive in order

  /** Calls take effect in the order of their stamps, and a lapse shows in the stamps. */
  ghost predicate InStampOrder(p: Params, s: Sys, steps: seq<Step>)
    requires CanRun(p, s, steps)
  {
    steps == [] ||
    (var before, step := steps[..|steps| - 1], steps[|steps| - 1];
     var a := Run(p, s, before);
     InStampOrder(p, s, before) && (step.Script? && a.key.Some? ==>
       a.waiters[step.i].place.stamp >= a.key.value.lastTick + if step.expired then TTL_MS else 0))
  }

  /** No call of the window from step i on has a stamp before first. */
  ghost predicate StampedFrom(p: Params, s: Sys, steps: seq<Step>, i: nat, first: int)
    requires CanRun(p, s, steps) && i <= |steps|
    decreases |steps|
  {
    i == |steps| ||
    (var before, step := steps[..|steps| - 1], steps[|steps| - 1];
     StampedFrom(p, s, before, i, first) &&
     (step.Script? ==> Run(p, s, before).waiters[step.i].place.stamp >= first))
  }

  lemma {:induction false} MovedInOrder(p: Params, s: Sys, steps: seq<Step>, i: nat, first: int)
    requires CanRun(p, s, steps) && i <= |steps| && InStampOrder(p, s, steps) && StampedFrom(p, s, steps, i, first)
    ensures var b, moved := Run(p, s, steps), Moved(p, s, steps, i);
      moved.Some? ==> b.key.Some? && moved.value <= b.key.value.lastTick - first
    decreases |steps|
  {
    hide Granted, Accrued;
    if i < |steps| {
      var step := steps[|steps| - 1];
      MovedInOrder(p, s, steps[..|steps| - 1], i, first);
      if !step.Script? { KeepsKey(p, Run(p, s, steps[..|steps| - 1]), step); hide Do, Enabled; }
    }
  }

  lemma KeepsKey(p: Params, s: Sys, step: Step)
    requires Enabled(p, s, step) && !step.Script?
    ensures Do(p, s, step).key == s.key && Do(p, s, step).ran == s.ran
  {
  }

  lemma EarnedGrows(l: Limit, a: int, b: int)
    requires a <= b
    ensures Earned(l, a) <= Earned(l, b)
  {
  }

  /** With stamps in order every window of calls is granted at most one burst and the rate from its first stamp to its
      last. */
  lemma GrantsInOrder(p: Params, s: Sys, steps: seq<Step>, i: nat, first: int)
    requires Start(p, s) && CanRun(p, s, steps) && i <= |steps|
    requires InStampOrder(p, s, steps) && StampedFrom(p, s, steps, i, first)
    ensures CanRun(p, s, steps[..i])
    ensures var l, a, b := LimitOf(p), Run(p, s, steps[..i]), Run(p, s, steps);
      || b.granted == a.granted
      || (b.key.Some? && b.granted - a.granted <= l.cap as real + Earned(l, b.key.value.lastTick - first))
  {
    hide Do, Enabled, Earned;
    GrantsByClock(p, s, steps, i);
    MovedInOrder(p, s, steps, i, first);
    RunMetered(p, s, steps);
    var moved := Moved(p, s, steps, i);
    if moved.Some? { EarnedGrows(LimitOf(p), moved.value, Run(p, s, steps).key.value.lastTick - first); }
  }

  // ---------------------------------------------------------------- one clock

  /** All goroutines read one clock; how long a call then takes to reach the script is open. */
  ghost predicate OneClock(p: Params, s: Sys, steps: seq<Step>)
    requires CanRun(p, s, steps)
  {
    steps == [] ||
    (var before, step := steps[..|steps| - 1], steps[|steps| - 1];
     OneClock(p, s, before) && (step.Stamp? ==> step.nowMs == Ms(Run(p, s, before).now)))
  }

  ghost predicate Stamped(s: Sys)
  {
    s.start <= s.now && forall w | w in s.waiters :: w.place.Sent? ==> Ms(s.start) <= w.place.stamp <= Ms(s.now)
  }

  lemma StepStamped(p: Params, s: Sys, step: Step)
    requires Stamped(s) && Enabled(p, s, step) && (step.Stamp? ==> step.nowMs == Ms(s.now))
    ensures Stamped(Do(p, s, step)) && s.now <= Do(p, s, step).now
  {
  }

  lemma MsGrows(a: real, b: real)
    requires a <= b
    ensures Ms(a) <= Ms(b)
  {
  }

  lemma {:induction false} RunStamped(p: Params, s: Sys, steps: seq<Step>)
    requires Start(p, s) && CanRun(p, s, steps) && OneClock(p, s, steps)
    ensures Stamped(Run(p, s, steps))
  {
    hide Do, Enabled;
    if steps != [] {
      RunStamped(p, s, steps[..|steps| - 1]);
      StepStamped(p, Run(p, s, steps[..|steps| - 1]), steps[|steps| - 1]);
    }
  }

  /** The milliseconds that calls have taken from their stamp to their effect, all goroutines together. */
  function Flown(ws: seq<Waiter>): nat
  {
    if ws == [] then 0 else Flown(ws[..|ws| - 1]) + ws[|ws| - 1].flown
  }

  lemma {:induction false} FlownUpdate(ws: seq<Waiter>, i: nat, w: Waiter)
    requires i < |ws|
    ensures Flown(ws[i := w]) == Flown(ws) - ws[i].flown + w.flown
  {
    var n := |ws| - 1;
    if i == n {
      assert ws[i := w][..n] == ws[..n];
    } else {
      assert ws[i := w][..n] == ws[..n][i := w];
      FlownUpdate(ws[..n], i, w);
    }
  }

  lemma StepFlown(p: Params, s: Sys, step: Step)
    requires Enabled(p, s, step)
    ensures Flown(Do(p, s, step).waiters) ==
      Flown(s.waiters) + if step.Script? then InFlight(s, s.waiters[step.i].place.stamp) else 0
  {
    var t := Do(p, s, step);
    if !step.Tick? && !step.NewBucket? && !step.ProbeAnswered? {
      FlownUpdate(s.waiters, step.i, t.waiters[step.i]);
      assert t.waiters == s.waiters[step.i := t.waiters[step.i]];
    }
  }

  /** In the window from a to b the clock has moved no further than time has, but for calls in flight. */
  ghost predicate Timely(a: Sys, b: Sys, moved: Option<nat>)
  {
    && a.now <= b.now && Flown(a.waiters) <= Flown(b.waiters)
    && (moved.Some? ==>
          && b.key.Some? && b.key.value.lastTick <= Ms(b.ran) && b.ran <= b.now
          && moved.value <= b.key.value.lastTick - Ms(a.now) + Flown(b.waiters) - Flown(a.waiters))
  }

  lemma LapseInMs(ran: real, now: real)
    requires now - ran >= TTL_MS as real / 1000.0
    ensures Ms(ran) + TTL_MS <= Ms(now)
  {
  }

  lemma StepTimely(p: Params, a: Sys, s: Sys, step: Step, moved: Option<nat>)
    requires Stamped(s) && Enabled(p, s, step) && (step.Stamp? ==> step.nowMs == Ms(s.now)) && Timely(a, s, moved)
    ensures !step.Script? ==> Timely(a, Do(p, s, step), moved)
    ensures step.Script? ==>
      Timely(a, Do(p, s, step),
             Some(if moved.None? then 0 else moved.value + Move(s, s.waiters[step.i], step.expired)))
  {
    StepFlown(p, s, step);
    StepStamped(p, s, step);
    if step.Script? {
      var stamp := s.waiters[step.i].place.stamp;
      assert s.waiters[step.i] in s.waiters && stamp <= Ms(s.now);
      MsGrows(a.now, s.now);
      if moved.Some? {
        MsGrows(s.ran, s.now);
        if step.expired { LapseInMs(s.ran, s.now); }
      }
      hide Ms, Flown, Granted, Stamped, LimitOf, CallMade;
    } else {
      KeepsKey(p, s, step);
      hide Do, Enabled, Ms, Flown;
    }
  }

  lemma {:induction false} RunTimely(p: Params, s: Sys, steps: seq<Step>, i: nat)
    requires Start(p, s) && CanRun(p, s, steps) && i <= |steps| && OneClock(p, s, steps)
    ensures CanRun(p, s, steps[..i])
    ensures Timely(Run(p, s, steps[..i]), Run(p, s, steps), Moved(p, s, steps, i))
    decreases |steps|
  {
    hide Do, Enabled, Move, Timely;
    PrefixRuns(p, s, steps, i);
    if i == |steps| {
      assert steps[..i] == steps;
      AtOnce(Run(p, s, steps));
    } else {
      var before := steps[..|steps| - 1];
      assert before[..i] == steps[..i];
      RunTimely(p, s, before, i);
      RunStamped(p, s, before);
      StepTimely(p, Run(p, s, steps[..i]), Run(p, s, before), steps[|steps| - 1], Moved(p, s, before, i));
    }
  }

  lemma AtOnce(s: Sys)
    ensures Timely(s, s, None)
  {
  }

  /** The milliseconds from a to b, with those its calls were in flight. */
  function Elapsed(a: Sys, b: Sys): int
  {
    Ms(b.now) - Ms(a.now) + Flown(b.waiters) - Flown(a.waiters)
  }

  /** With one clock, in any window of any run the script grants at most one burst and the rate over the elapsed time;
      a call that reaches the script late adds the time it was in flight, because it sets the key's clock back. */
  lemma GrantsInWindow(p: Params, s: Sys, steps: seq<Step>, i: nat)
    requires Start(p, s) && CanRun(p, s, steps) && i <= |steps| && OneClock(p, s, steps)
    ensures CanRun(p, s, steps[..i])
    ensures var l, a, b := LimitOf(p), Run(p, s, steps[..i]), Run(p, s, steps);
      Elapsed(a, b) >= 0 && b.granted - a.granted <= l.cap as real + Earned(l, Elapsed(a, b))
  {
    hide Do, Enabled, Earned, Ms, Flown, Moved;
    GrantsByClock(p, s, steps, i);
    RunTimely(p, s, steps, i);
    RunMetered(p, s, steps);
    var a, b, moved := Run(p, s, steps[..i]), Run(p, s, steps), Moved(p, s, steps, i);
    MsGrows(a.now, b.now);
    if moved.Some? {
      MsGrows(b.ran, b.now);
      EarnedGrows(LimitOf(p), moved.value, Elapsed(a, b));
    } else {
      EarnedGrows(LimitOf(p), 0, Elapsed(a, b));
      EarnedAdd(LimitOf(p), 0, 0);
    }
  }

  /** And with Redis reachable what the window releases was granted in it or outstanding before. */
  lemma ReleasedInWindow(p: Params, s: Sys, steps: seq<Step>, i: nat)
    requires Start(p, s) && CanRun(p, s, steps) && i <= |steps| && OneClock(p, s, steps)
    requires forall step | step in steps :: Reaches(step)
    ensures CanRun(p, s, steps[..i])
    ensures var l, a, b := LimitOf(p), Run(p, s, steps[..i]), Run(p, s, steps);
      b.released - a.released <= l.cap as real + Earned(l, Elapsed(a, b)) + Outstanding(a)
  {
    hide Do, Enabled, Earned, Ms, Flown, Elapsed, Reaches, Outstanding;
    GrantsInWindow(p, s, steps, i);
    Conservation(p, s, steps[..i]);
    Conservation(p, s, steps);
  }

  // ---------------------------------------------------------------- what is released, over a whole run

  function Seconds(ms: int): real { ms as real / 1000.0 }

  function OrNone(moved: Option<nat>): nat { if moved.Some? then moved.value else 0 }

  /** Over every interleaving, with Redis failing, losing replies and recovering at any points and with any clocks:
      the bytes released are covered by one burst, by what the script's clock earned, and by one rate per goroutine
      and per proxy. */
  lemma ReleasedBounded(p: Params, s: Sys, steps: seq<Step>)
    requires p.rate > 0.0 && Start(p, s) && CanRun(p, s, steps)
    ensures var l, t := LimitOf(p), Run(p, s, steps);
      t.released <= l.cap as real + Earned(l, OrNone(Moved(p, s, steps, 0))) + SelfEarned(p, t)
  {
    hide Do, Enabled, Earned, SelfEarned;
    RunInv(p, s, steps);
    NetsAtLeast(p, Run(p, s, steps));
    GrantsByClock(p, s, steps, 0);
    assert steps[..0] == [];
    EarnedSign(LimitOf(p), OrNone(Moved(p, s, steps, 0)));
  }

  lemma EarnedSign(l: Limit, ms: nat)
    ensures Earned(l, ms) >= 0.0
  {
  }

  lemma {:induction false} RunStampedFrom(p: Params, s: Sys, steps: seq<Step>)
    requires Start(p, s) && CanRun(p, s, steps) && OneClock(p, s, steps)
    ensures StampedFrom(p, s, steps, 0, Ms(s.start))
  {
    hide Do, Enabled, Ms;
    if steps != [] {
      var before, step := steps[..|steps| - 1], steps[|steps| - 1];
      RunStampedFrom(p, s, before);
      RunStamped(p, s, before);
      RunKeepsWaiters(p, s, before);
      if step.Script? { ScriptSent(p, Run(p, s, before), step); }
    }
  }

  lemma ScriptSent(p: Params, s: Sys, step: Step)
    requires Enabled(p, s, step) && step.Script?
    ensures step.i < |s.waiters| && s.waiters[step.i].place.Sent?
  {
  }

  /** With one clock and calls that take effect in the order of their stamps, no sleep adds rounding: one burst and
      the rate over the elapsed time, once for the script and once for every goroutine and proxy, but for one
      millisecond. */
  lemma ReleasedInOrder(p: Params, s: Sys, steps: seq<Step>)
    requires p.rate > 0.0 && Start(p, s) && CanRun(p, s, steps) && OneClock(p, s, steps) && InStampOrder(p, s, steps)
    ensures var t := Run(p, s, steps);
      t.released <= p.capacity + RatesOver(p, |t.waiters| + |t.buckets| + 1, t.now - t.start) + RatesOver(p, 1, 0.001)
  {
    hide Do, Enabled, Earned, SelfEarned, Moved, Ms, InStampOrder, OneClock, RatesOver;
    var t, moved := Run(p, s, steps), Moved(p, s, steps, 0);
    assert steps[..0] == [];
    ReleasedBounded(p, s, steps);
    RunKeepsWaiters(p, s, steps);
    RunStamped(p, s, steps);
    RunTimely(p, s, steps, 0);
    if moved.Some? {
      RunStampedFrom(p, s, steps);
      MovedInOrder(p, s, steps, 0, Ms(s.start));
      MsGrows(t.ran, t.now);
    }
    MsBetween(s.start);
    MsBetween(t.now);
    EarnedAtMost(p, OrNone(moved), t.now - t.start + 0.001);
    OneMoreRate(p, t);
  }

  lemma OneMoreRate(p: Params, t: Sys)
    ensures Credit(p, t.now - t.start + 0.001) + SelfEarned(p, t)
         == RatesOver(p, |t.waiters| + |t.buckets| + 1, t.now - t.start) + RatesOver(p, 1, 0.001)
  {
  }


  /** The time up to t that a goroutine has left for degraded sleeps: not that of its own calls in flight. A sleep after
      a call that took effect can gain it a millisecond, by the rounding of the stamps around it. */
  function Spare(s: Sys, w: Waiter, t: real): real { t - s.start + Seconds(w.naps + 1 - w.flown) }

  /** The millisecond of rounding that a goroutine has not used while none of its calls has taken effect. */
  function Unused(w: Waiter): real { if w.flew then 0.0 else 0.001 }

  ghost predicate ChargedWaiter(p: Params, s: Sys, w: Waiter)
  {
    && w.paid <= Credit(p, Spare(s, w, Seconds(Ms(s.now))))
    && (!w.flew ==> w.paid <= Credit(p, Spare(s, w, s.now - 0.001)))
    && (w.place.Sent? ==> w.place.stamp <= Ms(s.now) && w.paid <= Credit(p, Spare(s, w, Seconds(w.place.stamp))))
    && (w.place.Drain? ==> w.paid + w.place.need <= Credit(p, Spare(s, w, w.place.until - Unused(w))))
  }

  /** A goroutine does not sleep while its calls are in flight. */
  ghost predicate Charged(p: Params, s: Sys)
  {
    forall w | w in s.waiters :: ChargedWaiter(p, s, w)
  }

  lemma MsBetween(t: real)
    ensures t - 0.001 < Seconds(Ms(t)) <= t
  {
  }

  lemma LaterCharged(p: Params, s: Sys, w: Waiter, now: real)
    requires ChargedWaiter(p, s, w) && s.now <= now
    ensures ChargedWaiter(p, s.(now := now), w)
  {
    MsGrows(s.now, now);
    CreditGrows(p, Spare(s, w, Seconds(Ms(s.now))), Spare(s, w, Seconds(Ms(now))));
    CreditGrows(p, Spare(s, w, s.now - 0.001), Spare(s, w, now - 0.001));
    hide Ms, Credit;
  }

  lemma DrainCharged(p: Params, s: Sys, w: Waiter, need: real)
    requires p.rate > 0.0 && ChargedWaiter(p, s, w)
    ensures w.paid + need <= Credit(p, Spare(s, w, s.now + SleepFor(p, need) - Unused(w)))
  {
    MsBetween(s.now);
    CreditGrows(p, Spare(s, w, Seconds(Ms(s.now))), Spare(s, w, s.now));
    var ready := Spare(s, w, s.now - Unused(w));
    CreditOfSleep(p, need);
    CreditAdd(p, ready, SleepFor(p, need));
    assert ready + SleepFor(p, need) == Spare(s, w, s.now + SleepFor(p, need) - Unused(w));
    hide Ms, Credit, SleepFor;
  }

  lemma FinishCharged(p: Params, s: Sys, w: Waiter)
    requires ChargedWaiter(p, s, w) && w.place.Drain? && w.place.until <= s.now
    ensures ChargedWaiter(p, s, Rested(w))
  {
    MsBetween(s.now);
    var rested := Rested(w);
    assert Spare(s, rested, s.now - 0.001) == Spare(s, w, s.now - Unused(w)) by { hide Ms, Credit; }
    CreditGrows(p, Spare(s, w, w.place.until - Unused(w)), Spare(s, rested, s.now - 0.001));
    CreditGrows(p, Spare(s, rested, s.now - 0.001), Spare(s, rested, Seconds(Ms(s.now))));
    hide Ms, Credit;
  }

  lemma FlightCharged(p: Params, s: Sys, w: Waiter, place: Place)
    requires ChargedWaiter(p, s, w) && w.place.Sent? && !place.Sent? && !place.Drain?
    ensures ChargedWaiter(p, s, w.(place := place, flown := w.flown + InFlight(s, w.place.stamp), flew := true))
  {
    var arrived := w.(place := place, flown := w.flown + InFlight(s, w.place.stamp), flew := true);
    assert Spare(s, arrived, Seconds(Ms(s.now))) == Spare(s, w, Seconds(w.place.stamp)) by { hide Ms; }
    hide Ms, Credit, Spare;
  }

  lemma MoveCharged(p: Params, s: Sys, t: Sys, i: nat)
    requires Charged(p, s) && i < |s.waiters| && t.start == s.start && t.now == s.now && |t.waiters| == |s.waiters|
    requires t.waiters == s.waiters[i := t.waiters[i]] && ChargedWaiter(p, s, t.waiters[i])
    ensures Charged(p, t)
  {
    forall w | w in t.waiters ensures ChargedWaiter(p, t, w) {
      assert w == t.waiters[i] || w in s.waiters;
      assert ChargedWaiter(p, s, w);
    }
  }

  lemma StepCharged(p: Params, s: Sys, step: Step)
    requires p.rate > 0.0 && Charged(p, s) && Enabled(p, s, step) && (step.Stamp? ==> step.nowMs == Ms(s.now))
    ensures Charged(p, Do(p, s, step))
  {
    var t := Do(p, s, step);
    if step.Tick? {
      forall w | w in t.waiters ensures ChargedWaiter(p, t, w) {
        LaterCharged(p, s, w, t.now);
      }
    } else if step.NewBucket? || step.ProbeAnswered? {
      forall w | w in t.waiters ensures ChargedWaiter(p, t, w) {
        assert ChargedWaiter(p, s, w);
      }
    } else {
      var w := s.waiters[step.i];
      assert ChargedWaiter(p, s, w) && t.waiters == s.waiters[step.i := t.waiters[step.i]];
      if step.Script? {
        FlightCharged(p, s, w, t.waiters[step.i].place);
      } else if step.Finish? {
        FinishCharged(p, s, w);
      } else if t.waiters[step.i].place.Drain? {
        DrainCharged(p, s, w, t.waiters[step.i].place.need);
      }
      hide Ms, Credit;
      MoveCharged(p, s, t, step.i);
    }
  }

  lemma {:induction false} RunCharged(p: Params, s: Sys, steps: seq<Step>)
    requires p.rate > 0.0 && Start(p, s) && CanRun(p, s, steps) && OneClock(p, s, steps)
    ensures Charged(p, Run(p, s, steps))
  {
    hide Do, Enabled;
    if steps == [] {
      MsBetween(s.now);
      CreditGrows(p, 0.0, Seconds(Ms(s.now)) - s.start + 0.001);
      forall w | w in s.waiters ensures ChargedWaiter(p, s, w) {
        assert w == NEW_WAITER && Spare(s, w, Seconds(Ms(s.now))) == Seconds(Ms(s.now)) - s.start + 0.001;
      }
    } else {
      RunCharged(p, s, steps[..|steps| - 1]);
      StepCharged(p, Run(p, s, steps[..|steps| - 1]), steps[|steps| - 1]);
    }
  }

  ghost function PaidOf(w: Waiter): real { w.paid }

  ghost function Unpaid(w: Waiter): real { -w.paid }

  /** The degraded sleeps that have ended, all goroutines together. */
  function Naps(ws: seq<Waiter>): nat
  {
    if ws == [] then 0 else Naps(ws[..|ws| - 1]) + ws[|ws| - 1].naps
  }

  /** The time n goroutines have until t, less their flights, with their rounding. */
  function SpareOfAll(s: Sys, ws: seq<Waiter>, t: real): real
  {
    |ws| as real * (t - s.start) + Seconds(Naps(ws) + |ws| - Flown(ws))
  }

  lemma {:induction false} PaidBound(p: Params, s: Sys, ws: seq<Waiter>)
    requires forall w | w in ws :: ChargedWaiter(p, s, w)
    ensures Sum(ws, PaidOf) <= Credit(p, SpareOfAll(s, ws, Seconds(Ms(s.now))))
  {
    var t := Seconds(Ms(s.now));
    if ws == [] {
      CreditAdd(p, 0.0, 0.0);
      assert SpareOfAll(s, ws, t) == 0.0;
    } else {
      var n := |ws| - 1;
      assert ws[n] in ws;
      PaidBound(p, s, ws[..n]);
      CreditAdd(p, SpareOfAll(s, ws[..n], t), Spare(s, ws[n], t));
      OneMoreSpare(s, ws, t);
      hide Credit, Spare, SpareOfAll, Ms;
    }
  }

  lemma OneMoreSpare(s: Sys, ws: seq<Waiter>, t: real)
    requires ws != []
    ensures var n := |ws| - 1; SpareOfAll(s, ws, t) == SpareOfAll(s, ws[..n], t) + Spare(s, ws[n], t)
  {
  }

  function CreditOfMany(p: Params, n: nat, d: real): real { n as real * Credit(p, d) }

  lemma AccruedBound(p: Params, s: Sys)
    requires Sane(s) && Timed(p, s)
    ensures Sum(s.buckets, BucketNet) >= -CreditOfMany(p, |s.buckets|, s.now - s.start)
  {
    var c := Credit(p, s.now - s.start);
    forall b | b in s.buckets ensures -c <= BucketNet(b) {
      assert TimedBucket(p, s, b);
      CreditGrows(p, b.lastRefill - b.created, s.now - s.start);
    }
    hide Credit, Timed, Sane;
    SumAtLeast(s.buckets, BucketNet, -c);
    assert |s.buckets| as real * -c == -(|s.buckets| as real * c);
  }

  /** What is released was granted, or paid for by a degraded sleep, or accrued in a proxy. */
  lemma ReleasedBySource(p: Params, s: Sys)
    requires Inv(p, s) && p.rate > 0.0
    ensures s.released <= s.granted + Sum(s.waiters, PaidOf) + CreditOfMany(p, |s.buckets|, s.now - s.start)
  {
    AccruedBound(p, s);
    OutstandingHeld(s);
    hide CreditOfMany, Credit, Probed, Timed, Sane;
    SumAdd(s.waiters, Held, Unpaid, WaiterNet);
    SumAdd(s.waiters, PaidOf, Unpaid, Nothing);
    SumNothing(s.waiters);
  }

  lemma OutstandingHeld(s: Sys)
    requires Sane(s)
    ensures Sum(s.waiters, Held) >= 0.0
  {
    forall w | w in s.waiters ensures 0.0 <= Held(w) { assert SaneWaiter(s.buckets, w); }
    SumAtLeast(s.waiters, Held, 0.0);
  }

  lemma EarnedAtMost(p: Params, ms: int, seconds: real)
    requires Seconds(ms) <= seconds && 0 <= ms
    ensures Earned(LimitOf(p), ms) <= Credit(p, seconds)
  {
  }

  /** All the time that can be credited: the clock's, every goroutine's and every proxy's, and the rounding of the
      stamps, a millisecond for the clock, for every goroutine and for every degraded sleep. */
  function Budget(t: Sys): real
  {
    (|t.waiters| + |t.buckets| + 1) as real * (t.now - t.start) + Seconds(Naps(t.waiters) + |t.waiters| + 1)
  }

  lemma TimesN(n: nat, x: real, y: real)
    requires x <= y
    ensures n as real * x <= n as real * y
  {
  }

  lemma TimeCovered(s: Sys, t: Sys)
    requires s.now == s.start == t.start <= t.now
    ensures Seconds(Elapsed(s, t)) + SpareOfAll(t, t.waiters, Seconds(Ms(t.now)))
          + |t.buckets| as real * (t.now - t.start) <= Budget(t)
  {
    var d, at, n, b := t.now - t.start, Seconds(Ms(t.now)), |t.waiters| as real, |t.buckets| as real;
    MsBetween(s.now);
    MsBetween(t.now);
    TimesN(|t.waiters|, at - t.start, d);
    var flown, was, naps := Flown(t.waiters), Flown(s.waiters), Naps(t.waiters);
    assert Elapsed(s, t) == Ms(t.now) - Ms(s.now) + flown - was;
    assert SpareOfAll(t, t.waiters, at) == n * (at - t.start) + Seconds(naps + |t.waiters| - flown);
    assert Budget(t) == (n + b + 1.0) * d + Seconds(naps + |t.waiters| + 1);
    hide *;
    assert (n + b + 1.0) * d == n * d + b * d + d;
  }

  lemma BudgetCovers(p: Params, s: Sys, t: Sys)
    requires s.now == s.start == t.start <= t.now
    ensures Credit(p, Seconds(Elapsed(s, t))) + Credit(p, SpareOfAll(t, t.waiters, Seconds(Ms(t.now))))
          + CreditOfMany(p, |t.buckets|, t.now - t.start) <= Credit(p, Budget(t))
  {
    TimeCovered(s, t);
    hide Elapsed, SpareOfAll, Budget, Ms, Credit, CreditOfMany, Seconds;
    CreditOfSum(p, Seconds(Elapsed(s, t)), SpareOfAll(t, t.waiters, Seconds(Ms(t.now))), |t.buckets|, t.now - t.start,
                Budget(t));
  }

  lemma CreditOfSum(p: Params, x: real, y: real, n: nat, d: real, all: real)
    requires x + y + n as real * d <= all
    ensures Credit(p, x) + Credit(p, y) + CreditOfMany(p, n, d) <= Credit(p, all)
  {
  }

  /** With one clock the bytes released are one burst and the rate over the elapsed time, once for the script and once
      for every goroutine and proxy, whenever calls reach the script: the time a call is in flight, which the script may
      credit again, is time in which its goroutine does not sleep. */
  lemma ReleasedOverTime(p: Params, s: Sys, steps: seq<Step>)
    requires p.rate > 0.0 && Start(p, s) && CanRun(p, s, steps) && OneClock(p, s, steps)
    ensures var t := Run(p, s, steps); t.released <= p.capacity + Credit(p, Budget(t))
  {
    hide Do, Enabled, Ms, Credit, CreditOfMany, Earned, Budget, Charged, SpareOfAll, Elapsed, OneClock;
    var t := Run(p, s, steps);
    assert steps[..0] == [];
    RunInv(p, s, steps);
    RunKeepsWaiters(p, s, steps);
    RunStamped(p, s, steps);
    RunCharged(p, s, steps);
    GrantsInWindow(p, s, steps, 0);
    ChargedAll(p, t);
    PaidBound(p, t, t.waiters);
    ReleasedBySource(p, t);
    EarnedAtMost(p, Elapsed(s, t), Seconds(Elapsed(s, t)));
    BudgetCovers(p, s, t);
  }

  lemma ChargedAll(p: Params, s: Sys)
    requires Charged(p, s)
    ensures forall w | w in s.waiters :: ChargedWaiter(p, s, w)
  {
  }
}
