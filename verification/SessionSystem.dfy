// Every interleaving of the individual steps of Acquire and release on shared session objects.
//
// A caller between two requests is Out. Each step is one atomic operation or one locked section; what
// the size lookup says and whether the IP window is exceeded are choices of the step.
module SessionSystem {
  import opened Basics
  import opened SessionState

  datatype Place =
    | Out
    | Fresh      // has the session object, about to load total
    | TotalOK    // passed the total check
    | Reserved   // passed the big-file check
    | PathOK     // passed the path check
    | Rejecting  // about to undo its reservation and reject
    | Counted    // total added, conc not yet
    | Live       // admitted
    | ConcDown   // release: conc subtracted
    | HashDown   // release: reservation undone
    | Leaving    // release: total subtracted down to zero, about to delete the session

  /** big tells whether the caller reserved a big-file slot. */
  datatype Caller = Caller(place: Place, obj: nat, id: string, infoHash: string, path: string, big: bool)

  /** sessions maps an ID to its current object; objs holds every object ever made. */
  datatype Sys = Sys(sessions: map<string, nat>, objs: seq<Session>, callers: seq<Caller>)

  datatype Step =
    | Get(i: nat, id: string, infoHash: string, path: string)
    | CheckTotal(i: nat)
    | TryBig(i: nat, big: bool)
    | CheckPath(i: nat)
    | RejectIPs(i: nat)
    | AddToTotal(i: nat)
    | AddToConc(i: nat)
    | DropConc(i: nat)
    | DropHash(i: nat)
    | DropTotal(i: nat)
    | Delete(i: nat)

  function Key(c: Caller): string { PathKey(c.infoHash, c.path) }

  predicate Enabled(l: Limits, s: Sys, step: Step)
  {
    && step.i < |s.callers|
    && var place := s.callers[step.i].place;
       && (place.Out? || s.callers[step.i].obj < |s.objs|)
       && match step
          case Get(_, id, _, _) => place.Out? && id != "" && (id in s.sessions ==> s.sessions[id] < |s.objs|)
          case CheckTotal(_) => place.Fresh?
          case TryBig(_, _) => place.TotalOK?
          case CheckPath(_) => place.Reserved?
          case RejectIPs(_) => place.PathOK? && l.maxIPs > 0
          case AddToTotal(_) => place.PathOK?
          case AddToConc(_) => place.Counted?
          case DropConc(_) => place.Live?
          case DropHash(_) => place.ConcDown? || place.Rejecting?
          case DropTotal(_) => place.HashDown?
          case Delete(_) => place.Leaving?
  }

  function Go(s: Sys, i: nat, place: Place): Sys
    requires i < |s.callers|
  {
    s.(callers := s.callers[i := s.callers[i].(place := place)])
  }

  function Set(s: Sys, o: nat, obj: Session): Sys
    requires o < |s.objs|
  {
    s.(objs := s.objs[o := obj])
  }

  function DoGet(s: Sys, i: nat, id: string, infoHash: string, path: string): Sys
    requires i < |s.callers|
  {
    var o := if id in s.sessions then s.sessions[id] else |s.objs|;
    var t := s.(callers := s.callers[i := Caller(Fresh, o, id, infoHash, path, false)]);
    if id in s.sessions then t else t.(sessions := s.sessions[id := o], objs := s.objs + [EMPTY])
  }

  function DoTryBig(l: Limits, s: Sys, i: nat, big: bool): Sys
    requires i < |s.callers| && s.callers[i].obj < |s.objs|
  {
    var c := s.callers[i];
    var obj := s.objs[c.obj];
    if !big then Go(s, i, Reserved)
    else if BigFull(l, obj, c.infoHash, c.path) then Go(s, i, Out)
    else Set(s.(callers := s.callers[i := c.(place := Reserved, big := true)]), c.obj,
             AddBig(obj, c.infoHash, c.path))
  }

  function Do(l: Limits, s: Sys, step: Step): Sys
    requires Enabled(l, s, step)
  {
    var i := step.i;
    var c := s.callers[i];
    match step
    case Get(_, id, infoHash, path) => DoGet(s, i, id, infoHash, path)
    case CheckTotal(_) => Go(s, i, if Full(l.maxTotal, s.objs[c.obj].total) then Out else TotalOK)
    case TryBig(_, big) => DoTryBig(l, s, i, big)
    case CheckPath(_) => Go(s, i, if Full(l.maxPerPath, Conc(s.objs[c.obj], Key(c))) then Rejecting else PathOK)
    case RejectIPs(_) => Go(s, i, Rejecting)
    case AddToTotal(_) => Set(Go(s, i, Counted), c.obj, AddTotal(s.objs[c.obj], 1))
    case AddToConc(_) => Set(Go(s, i, Live), c.obj, AddConc(s.objs[c.obj], Key(c), 1))
    case DropConc(_) => Set(Go(s, i, ConcDown), c.obj, AddConc(s.objs[c.obj], Key(c), -1))
    case DropHash(_) =>
      var t := Go(s, i, if c.place.Rejecting? then Out else HashDown);
      if c.big then Set(t, c.obj, DropBig(s.objs[c.obj], c.infoHash, c.path)) else t
    case DropTotal(_) =>
      var obj := AddTotal(s.objs[c.obj], -1);
      Set(Go(s, i, if obj.total <= 0 then Leaving else Out), c.obj, obj)
    case Delete(_) =>
      var t := Go(s, i, Out);
      if s.objs[c.obj].total <= 0 then t.(sessions := s.sessions - {c.id}) else t
  }

  // ---------------------------------------------------------------- who holds what

  /** Between the caller's own add to and subtract from total. */
  ghost function HoldsTotal(o: nat): Caller -> bool
  {
    (c: Caller) => c.obj == o && (c.place.Counted? || c.place.Live? || c.place.ConcDown? || c.place.HashDown?)
  }

  ghost function HoldsConc(o: nat, key: string): Caller -> bool
  {
    (c: Caller) => c.obj == o && Key(c) == key && c.place.Live?
  }

  ghost function HoldsBig(o: nat, infoHash: string, path: string): Caller -> bool
  {
    (c: Caller) =>
      && c.obj == o && c.infoHash == infoHash && c.path == path && c.big
      && (c.place.Reserved? || c.place.PathOK? || c.place.Rejecting? || c.place.Counted? || c.place.Live?
          || c.place.ConcDown?)
  }

  /** Past the total check and not yet added to total. */
  ghost function Checking(o: nat): Caller -> bool
  {
    (c: Caller) => c.obj == o && (c.place.TotalOK? || c.place.Reserved? || c.place.PathOK?)
  }

  /** Past the path check and not yet added to conc. */
  ghost function CheckingPath(o: nat, key: string): Caller -> bool
  {
    (c: Caller) => c.obj == o && Key(c) == key && (c.place.PathOK? || c.place.Counted?)
  }

  ghost predicate Exact(s: Sys)
  {
    forall o | 0 <= o < |s.objs| ::
      && s.objs[o].total == Count(s.callers, HoldsTotal(o))
      && (forall key :: Conc(s.objs[o], key) == Count(s.callers, HoldsConc(o, key)))
      && (forall h, p :: Big(s.objs[o], h, p) == Count(s.callers, HoldsBig(o, h, p)))
  }

  ghost predicate SaneCaller(s: Sys, c: Caller)
  {
    c.place.Out? || (c.obj < |s.objs| && (c.place.Fresh? || c.place.TotalOK? ==> !c.big))
  }

  ghost predicate Inv(l: Limits, s: Sys)
  {
    && (forall c | c in s.callers :: SaneCaller(s, c))
    && (forall id | id in s.sessions :: s.sessions[id] < |s.objs|)
    && (forall obj | obj in s.objs :: BigInRange(l, obj))
    && Exact(s)
  }

  ghost predicate Start(s: Sys)
  {
    s.sessions == map[] && s.objs == [] && forall c | c in s.callers :: c.place.Out?
  }

  // ---------------------------------------------------------------- every step keeps the counters exact

  /** The counters of object o follow the one caller that moves. */
  ghost predicate Follows(s: Sys, t: Sys, i: nat, o: nat)
    requires i < |s.callers| == |t.callers| && o < |s.objs| && o < |t.objs|
  {
    var was, now := s.callers[i], t.callers[i];
    && t.objs[o].total == s.objs[o].total + Change(HoldsTotal(o), was, now)
    && (forall key :: Conc(t.objs[o], key) == Conc(s.objs[o], key) + Change(HoldsConc(o, key), was, now))
    && (forall h, p :: Big(t.objs[o], h, p) == Big(s.objs[o], h, p) + Change(HoldsBig(o, h, p), was, now))
  }

  ghost function Change(holds: Caller -> bool, was: Caller, now: Caller): int
  {
    (if holds(now) then 1 else 0) - (if holds(was) then 1 else 0)
  }

  lemma MoveExact(s: Sys, t: Sys, i: nat)
    requires Exact(s) && i < |s.callers| == |t.callers| && t.callers == s.callers[i := t.callers[i]]
    requires |t.objs| == |s.objs| && forall o | 0 <= o < |s.objs| :: Follows(s, t, i, o)
    ensures Exact(t)
  {
    var now := t.callers[i];
    forall o | 0 <= o < |t.objs|
      ensures t.objs[o].total == Count(t.callers, HoldsTotal(o))
      ensures forall key :: Conc(t.objs[o], key) == Count(t.callers, HoldsConc(o, key))
      ensures forall h, p :: Big(t.objs[o], h, p) == Count(t.callers, HoldsBig(o, h, p))
    {
      assert Follows(s, t, i, o);
      CountUpdate(s.callers, HoldsTotal(o), i, now);
      forall key ensures Conc(t.objs[o], key) == Count(t.callers, HoldsConc(o, key)) {
        CountUpdate(s.callers, HoldsConc(o, key), i, now);
      }
      forall h, p ensures Big(t.objs[o], h, p) == Count(t.callers, HoldsBig(o, h, p)) {
        CountUpdate(s.callers, HoldsBig(o, h, p), i, now);
      }
    }
  }

  /** A caller holding a reservation keeps its path in the active set. */
  lemma HolderCounts(l: Limits, s: Sys, i: nat)
    requires Inv(l, s) && i < |s.callers|
    requires var c := s.callers[i]; HoldsBig(c.obj, c.infoHash, c.path)(c)
    ensures var c := s.callers[i]; c.obj < |s.objs| && Big(s.objs[c.obj], c.infoHash, c.path) >= 1
  {
    var c := s.callers[i];
    assert c in s.callers;
    CountPositive(s.callers, HoldsBig(c.obj, c.infoHash, c.path));
  }

  lemma SetInRange(l: Limits, s: Sys, o: nat, obj: Session)
    requires (forall x | x in s.objs :: BigInRange(l, x)) && o < |s.objs| && BigInRange(l, obj)
    ensures forall x | x in s.objs[o := obj] :: BigInRange(l, x)
  {
  }

  lemma NewObjectExact(s: Sys, i: nat, t: Sys)
    requires Exact(s) && i < |s.callers| && s.callers[i].place.Out? && |t.callers| == |s.callers|
    requires forall c | c in s.callers :: SaneCaller(s, c)
    requires t.callers == s.callers[i := t.callers[i]] && t.callers[i].place.Fresh? && !t.callers[i].big
    requires t.objs == s.objs + [EMPTY] && t.callers[i].obj == |s.objs|
    ensures Exact(t)
  {
    var n := |s.objs|;
    var mid := s.(callers := t.callers);
    MoveExact(s, mid, i);
    assert forall c | c in t.callers :: c == t.callers[i] || c in s.callers;
    CountPositive(t.callers, HoldsTotal(n));
    forall key ensures Count(t.callers, HoldsConc(n, key)) == 0 { CountPositive(t.callers, HoldsConc(n, key)); }
    forall h, p ensures Count(t.callers, HoldsBig(n, h, p)) == 0 { CountPositive(t.callers, HoldsBig(n, h, p)); }
  }

  lemma GetExact(l: Limits, s: Sys, step: Step)
    requires Inv(l, s) && Enabled(l, s, step) && step.Get?
    ensures Exact(Do(l, s, step)) && forall x | x in Do(l, s, step).objs :: BigInRange(l, x)
  {
    var t := Do(l, s, step);
    if step.id in s.sessions {
      MoveExact(s, t, step.i);
    } else {
      NewObjectExact(s, step.i, t);
    }
  }

  lemma AddBigExact(l: Limits, s: Sys, t: Sys, i: nat)
    requires Inv(l, s) && i < |s.callers| == |t.callers| && t.callers == s.callers[i := t.callers[i]]
    requires s.callers[i].obj < |s.objs| && s.callers[i].place.TotalOK?
    requires t.callers[i] == s.callers[i].(place := Reserved, big := true)
    requires var c := s.callers[i];
      && !BigFull(l, s.objs[c.obj], c.infoHash, c.path)
      && t.objs == s.objs[c.obj := AddBig(s.objs[c.obj], c.infoHash, c.path)]
    ensures Exact(t) && forall x | x in t.objs :: BigInRange(l, x)
  {
    var c := s.callers[i];
    var obj := s.objs[c.obj];
    assert obj in s.objs && c in s.callers;
    AddBigInRange(l, obj, c.infoHash, c.path);
    SetInRange(l, s, c.obj, AddBig(obj, c.infoHash, c.path));
    forall o | 0 <= o < |s.objs| ensures Follows(s, t, i, o) {
      forall h, p ensures Big(t.objs[o], h, p) == Big(s.objs[o], h, p) + Change(HoldsBig(o, h, p), c, t.callers[i])
      {
        AddBigCounts(obj, c.infoHash, c.path, h, p);
      }
    }
    MoveExact(s, t, i);
  }

  lemma DropBigExact(l: Limits, s: Sys, t: Sys, i: nat)
    requires Inv(l, s) && i < |s.callers| == |t.callers| && t.callers == s.callers[i := t.callers[i]]
    requires s.callers[i].obj < |s.objs| && s.callers[i].big
    requires s.callers[i].place.ConcDown? || s.callers[i].place.Rejecting?
    requires t.callers[i] == s.callers[i].(place := t.callers[i].place)
    requires t.callers[i].place == if s.callers[i].place.ConcDown? then HashDown else Out
    requires var c := s.callers[i]; t.objs == s.objs[c.obj := DropBig(s.objs[c.obj], c.infoHash, c.path)]
    ensures Exact(t) && forall x | x in t.objs :: BigInRange(l, x)
  {
    var c := s.callers[i];
    var obj := s.objs[c.obj];
    assert obj in s.objs;
    HolderCounts(l, s, i);
    DropBigInRange(l, obj, c.infoHash, c.path);
    SetInRange(l, s, c.obj, DropBig(obj, c.infoHash, c.path));
    forall o | 0 <= o < |s.objs| ensures Follows(s, t, i, o) {
      forall h, p ensures Big(t.objs[o], h, p) == Big(s.objs[o], h, p) + Change(HoldsBig(o, h, p), c, t.callers[i])
      {
        DropBigCounts(obj, c.infoHash, c.path, h, p);
      }
    }
    MoveExact(s, t, i);
  }

  /** A step that changes at most the total or one conc of the caller's object. */
  lemma PlainExact(l: Limits, s: Sys, t: Sys, i: nat)
    requires Inv(l, s) && i < |s.callers| == |t.callers| && t.callers == s.callers[i := t.callers[i]]
    requires s.callers[i].obj < |s.objs| == |t.objs| && t.callers[i].obj == s.callers[i].obj
    requires var o := s.callers[i].obj;
      && t.objs == s.objs[o := t.objs[o]] && t.objs[o].big == s.objs[o].big && Follows(s, t, i, o)
    ensures Exact(t) && forall x | x in t.objs :: BigInRange(l, x)
  {
    var c := s.callers[i];
    forall o | 0 <= o < |s.objs| ensures Follows(s, t, i, o) {}
    MoveExact(s, t, i);
    assert s.objs[c.obj] in s.objs;
    SetInRange(l, s, c.obj, t.objs[c.obj]);
  }

  lemma PlainStepExact(l: Limits, s: Sys, step: Step)
    requires Inv(l, s) && Enabled(l, s, step)
    requires step.AddToConc? || step.DropConc? || step.AddToTotal? || step.DropTotal?
    ensures Exact(Do(l, s, step)) && forall x | x in Do(l, s, step).objs :: BigInRange(l, x)
  {
    PlainExact(l, s, Do(l, s, step), step.i);
  }

  /** Moves between places with the same holdings. */
  ghost predicate Quiet(c: Caller, to: Place)
  {
    match c.place
    case Fresh => to.Out? || to.TotalOK?
    case TotalOK => !c.big && (to.Out? || to.Reserved?)
    case Reserved => to.PathOK? || to.Rejecting?
    case PathOK => to.Rejecting?
    case Rejecting => !c.big && to.Out?
    case ConcDown => !c.big && to.HashDown?
    case Leaving => to.Out?
    case _ => false
  }

  lemma QuietExact(s: Sys, t: Sys, i: nat)
    requires Exact(s) && i < |s.callers| == |t.callers| && t.callers == s.callers[i := t.callers[i]]
    requires t.objs == s.objs && t.callers[i] == s.callers[i].(place := t.callers[i].place)
    requires Quiet(s.callers[i], t.callers[i].place)
    ensures Exact(t)
  {
    MoveExact(s, t, i);
  }

  lemma QuietStepExact(l: Limits, s: Sys, step: Step)
    requires Inv(l, s) && Enabled(l, s, step) && Do(l, s, step).objs == s.objs && !step.Get?
    requires !step.AddToConc? && !step.DropConc? && !step.AddToTotal? && !step.DropTotal?
    requires step.DropHash? ==> !s.callers[step.i].big
    requires step.TryBig? && step.big ==>
      var c := s.callers[step.i]; BigFull(l, s.objs[c.obj], c.infoHash, c.path)
    ensures Exact(Do(l, s, step))
  {
    hide Conc, Full, Exact, BigInRange, BigFull;
    assert s.callers[step.i] in s.callers;
    QuietExact(s, Do(l, s, step), step.i);
  }

  lemma StepExact(l: Limits, s: Sys, step: Step)
    requires Inv(l, s) && Enabled(l, s, step)
    ensures Exact(Do(l, s, step)) && forall x | x in Do(l, s, step).objs :: BigInRange(l, x)
  {
    hide Exact, BigFull, Conc, Big, AddBig, DropBig, AddConc, AddTotal, Full;
    var c := s.callers[step.i];
    if step.Get? {
      GetExact(l, s, step);
    } else if step.AddToConc? || step.DropConc? || step.AddToTotal? || step.DropTotal? {
      PlainStepExact(l, s, step);
    } else if step.TryBig? && step.big && !BigFull(l, s.objs[c.obj], c.infoHash, c.path) {
      AddBigExact(l, s, Do(l, s, step), step.i);
    } else if step.DropHash? && c.big {
      DropBigExact(l, s, Do(l, s, step), step.i);
    } else {
      QuietStepExact(l, s, step);
    }
  }

  lemma StepInv(l: Limits, s: Sys, step: Step)
    requires Inv(l, s) && Enabled(l, s, step)
    ensures Inv(l, Do(l, s, step))
  {
    StepExact(l, s, step);
    CallersSane(l, s, step);
  }

  lemma CallersSane(l: Limits, s: Sys, step: Step)
    requires Inv(l, s) && Enabled(l, s, step)
    ensures var t := Do(l, s, step);
      (forall c | c in t.callers :: SaneCaller(t, c)) && (forall id | id in t.sessions :: t.sessions[id] < |t.objs|)
  {
    hide AddBig, DropBig, AddConc, BigFull, Conc, Big, BigInRange, Exact, Full, AddTotal;
    var t := Do(l, s, step);
    assert s.callers[step.i] in s.callers;
    forall c | c in t.callers ensures SaneCaller(t, c) {
      assert c == t.callers[step.i] || (c in s.callers && SaneCaller(s, c));
    }
  }

  // ---------------------------------------------------------------- every run

  ghost predicate CanRun(l: Limits, s: Sys, steps: seq<Step>)
    decreases |steps|
  {
    steps == [] || (Enabled(l, s, steps[0]) && CanRun(l, Do(l, s, steps[0]), steps[1..]))
  }

  ghost function Run(l: Limits, s: Sys, steps: seq<Step>): Sys
    requires CanRun(l, s, steps)
    decreases |steps|
  {
    if steps == [] then s else Run(l, Do(l, s, steps[0]), steps[1..])
  }

  lemma {:induction false} RunInvFrom(l: Limits, s: Sys, steps: seq<Step>)
    requires Inv(l, s) && CanRun(l, s, steps)
    ensures Inv(l, Run(l, s, steps))
    decreases |steps|
  {
    hide Do, Enabled, Inv;
    if steps != [] {
      StepInv(l, s, steps[0]);
      RunInvFrom(l, Do(l, s, steps[0]), steps[1..]);
    }
  }

  /** In every interleaving each counter equals the number of callers between their own add and subtract,
      active big paths have one, and the distinct big files of a torrent respect their cap. */
  lemma CountersExact(l: Limits, s: Sys, steps: seq<Step>)
    requires Start(s) && CanRun(l, s, steps)
    ensures var t := Run(l, s, steps); Exact(t) && forall obj | obj in t.objs :: BigInRange(l, obj)
  {
    RunInvFrom(l, s, steps);
  }

  // ---------------------------------------------------------------- check then act

  /** In every state of the run at most k callers are where p says. */
  ghost predicate CrowdAtMost(l: Limits, s: Sys, steps: seq<Step>, p: Caller -> bool, k: nat)
    requires CanRun(l, s, steps)
    decreases |steps|
  {
    Count(s.callers, p) <= k &&
    (steps == [] || CrowdAtMost(l, Do(l, s, steps[0]), steps[1..], p, k))
  }

  ghost predicate TotalWithin(l: Limits, s: Sys, o: nat, k: nat)
  {
    o < |s.objs| ==> s.objs[o].total + Count(s.callers, Checking(o)) <= l.maxTotal - 1 + k
  }

  ghost predicate PathWithin(l: Limits, s: Sys, o: nat, key: string, k: nat)
  {
    o < |s.objs| ==> Conc(s.objs[o], key) + Count(s.callers, CheckingPath(o, key)) <= l.maxPerPath - 1 + k
  }

  lemma StepTotalWithin(l: Limits, s: Sys, step: Step, o: nat, k: nat)
    requires Inv(l, s) && Enabled(l, s, step) && l.maxTotal > 0
    requires TotalWithin(l, s, o, k) && Count(Do(l, s, step).callers, Checking(o)) <= k
    ensures TotalWithin(l, Do(l, s, step), o, k)
  {
    hide Inv, Conc, BigFull, AddBig, DropBig, AddConc, Key;
    var t := Do(l, s, step);
    assert t.callers == s.callers[step.i := t.callers[step.i]];
    CountUpdate(s.callers, Checking(o), step.i, t.callers[step.i]);
  }

  /** Moving one caller keeps the bound if what conc gains the caller gives up by committing, or if the
      caller has just passed the check. */
  lemma MovePathWithin(l: Limits, s: Sys, t: Sys, i: nat, o: nat, key: string, k: nat)
    requires PathWithin(l, s, o, key, k) && o < |s.objs| <= |t.objs| && i < |s.callers| == |t.callers|
    requires t.callers == s.callers[i := t.callers[i]] && Count(t.callers, CheckingPath(o, key)) <= k
    requires var gain := Conc(t.objs[o], key) - Conc(s.objs[o], key);
      || gain + Change(CheckingPath(o, key), s.callers[i], t.callers[i]) <= 0
      || (gain == 0 && Conc(s.objs[o], key) < l.maxPerPath)
    ensures PathWithin(l, t, o, key, k)
  {
    CountUpdate(s.callers, CheckingPath(o, key), i, t.callers[i]);
  }

  lemma ConcMoves(l: Limits, s: Sys, step: Step, o: nat, key: string)
    requires Enabled(l, s, step) && o < |s.objs|
    ensures var c := s.callers[step.i];
      Conc(Do(l, s, step).objs[o], key) == Conc(s.objs[o], key)
        + if c.obj != o || Key(c) != key then 0 else if step.AddToConc? then 1 else if step.DropConc? then -1 else 0
  {
  }

  lemma StepPathWithin(l: Limits, s: Sys, step: Step, o: nat, key: string, k: nat)
    requires Inv(l, s) && Enabled(l, s, step) && l.maxPerPath > 0
    requires PathWithin(l, s, o, key, k) && Count(Do(l, s, step).callers, CheckingPath(o, key)) <= k
    ensures PathWithin(l, Do(l, s, step), o, key, k)
  {
    hide Inv, BigFull, AddBig, DropBig, AddConc;
    var t := Do(l, s, step);
    if o < |s.objs| {
      ConcMoves(l, s, step, o, key);
      hide PathWithin, Conc, Key;
      MovePathWithin(l, s, t, step.i, o, key, k);
    }
  }

  lemma {:induction false} RunTotalWithin(l: Limits, s: Sys, steps: seq<Step>, o: nat, k: nat)
    requires Inv(l, s) && CanRun(l, s, steps) && l.maxTotal > 0
    requires TotalWithin(l, s, o, k) && CrowdAtMost(l, s, steps, Checking(o), k)
    ensures TotalWithin(l, Run(l, s, steps), o, k)
    decreases |steps|
  {
    hide Do, Enabled, Inv, TotalWithin;
    if steps != [] {
      StepInv(l, s, steps[0]);
      StepTotalWithin(l, s, steps[0], o, k);
      RunTotalWithin(l, Do(l, s, steps[0]), steps[1..], o, k);
    }
  }

  lemma {:induction false} RunPathWithin(l: Limits, s: Sys, steps: seq<Step>, o: nat, key: string, k: nat)
    requires Inv(l, s) && CanRun(l, s, steps) && l.maxPerPath > 0
    requires PathWithin(l, s, o, key, k) && CrowdAtMost(l, s, steps, CheckingPath(o, key), k)
    ensures PathWithin(l, Run(l, s, steps), o, key, k)
    decreases |steps|
  {
    hide Do, Enabled, Inv, PathWithin;
    if steps != [] {
      StepInv(l, s, steps[0]);
      StepPathWithin(l, s, steps[0], o, key, k);
      RunPathWithin(l, Do(l, s, steps[0]), steps[1..], o, key, k);
    }
  }

  /** If at most k callers are ever at once between the check and the add on an object, its total exceeds
      the cap by at most k - 1. */
  lemma TotalWithinCrowd(l: Limits, s: Sys, steps: seq<Step>, o: nat, k: nat)
    requires Start(s) && CanRun(l, s, steps) && l.maxTotal > 0 && CrowdAtMost(l, s, steps, Checking(o), k)
    ensures var t := Run(l, s, steps); o < |t.objs| ==> t.objs[o].total <= l.maxTotal - 1 + k
  {
    RunTotalWithin(l, s, steps, o, k);
  }

  /** Likewise for the requests on one path. */
  lemma PathWithinCrowd(l: Limits, s: Sys, steps: seq<Step>, o: nat, key: string, k: nat)
    requires Start(s) && CanRun(l, s, steps) && l.maxPerPath > 0
    requires CrowdAtMost(l, s, steps, CheckingPath(o, key), k)
    ensures var t := Run(l, s, steps); o < |t.objs| ==> Conc(t.objs[o], key) <= l.maxPerPath - 1 + k
  {
    RunPathWithin(l, s, steps, o, key, k);
  }

  // ---------------------------------------------------------------- a call on its own

  lemma Then(l: Limits, s: Sys, step: Step, rest: seq<Step>)
    requires Enabled(l, s, step) && CanRun(l, Do(l, s, step), rest)
    ensures CanRun(l, s, [step] + rest) && Run(l, s, [step] + rest) == Run(l, Do(l, s, step), rest)
  {
  }

  /** The counters a request for id will see. */
  function Current(s: Sys, id: string): Session
    requires id in s.sessions ==> s.sessions[id] < |s.objs|
  {
    if id in s.sessions then s.objs[s.sessions[id]] else EMPTY
  }

  /** The steps left after the total check has passed, given what the checks will find. */
  function StepsFor(v: Verdict, i: nat, big: bool): seq<Step>
  {
    match v
    case RejectedTotal => []
    case RejectedBig => [TryBig(i, big)]
    case RejectedPath => [TryBig(i, big)] + [CheckPath(i)] + [DropHash(i)]
    case RejectedIPs => [TryBig(i, big)] + [CheckPath(i)] + [RejectIPs(i)] + [DropHash(i)]
    case Admitted => [TryBig(i, big)] + [CheckPath(i)] + [AddToTotal(i)] + [AddToConc(i)]
  }

  lemma RunOne(l: Limits, s: Sys, step: Step)
    requires Enabled(l, s, step)
    ensures CanRun(l, s, [step]) && Run(l, s, [step]) == Do(l, s, step)
  {
  }

  lemma RunTwo(l: Limits, s: Sys, a: Step, b: Step)
    requires Enabled(l, s, a) && Enabled(l, Do(l, s, a), b)
    ensures CanRun(l, s, [a] + [b]) && Run(l, s, [a] + [b]) == Do(l, Do(l, s, a), b)
  {
    hide Do, Enabled;
    RunOne(l, Do(l, s, a), b);
    Then(l, s, a, [b]);
  }

  lemma {:induction false} RunAppend(l: Limits, s: Sys, a: seq<Step>, b: seq<Step>)
    requires CanRun(l, s, a) && CanRun(l, Run(l, s, a), b)
    ensures CanRun(l, s, a + b) && Run(l, s, a + b) == Run(l, Run(l, s, a), b)
    decreases |a|
  {
    hide Do, Enabled;
    if a == [] {
      assert a + b == b;
    } else {
      RunAppend(l, Do(l, s, a[0]), a[1..], b);
      Then(l, s, a[0], a[1..] + b);
      assert [a[0]] + (a[1..] + b) == a + b;
    }
  }

  lemma AppendOne(l: Limits, s: Sys, a: seq<Step>, step: Step)
    requires CanRun(l, s, a) && Enabled(l, Run(l, s, a), step)
    ensures CanRun(l, s, a + [step]) && Run(l, s, a + [step]) == Do(l, Run(l, s, a), step)
  {
    hide Do, Enabled;
    RunOne(l, Run(l, s, a), step);
    RunAppend(l, s, a, [step]);
  }

  /** The caller has passed the total check and has nothing reserved yet. */
  ghost predicate AboutToReserve(s: Sys, i: nat)
  {
    i < |s.callers| && s.callers[i].place.TotalOK? && !s.callers[i].big && s.callers[i].obj < |s.objs|
  }

  ghost function Outlook(l: Limits, s: Sys, i: nat, big: bool, ips: int): Verdict
    requires AboutToReserve(s, i)
  {
    DecideRest(l, s.objs[s.callers[i].obj], s.callers[i].infoHash, s.callers[i].path, big, ips)
  }

  /** The state after the remaining steps: only the caller's place and its object's counters differ. */
  ghost predicate Decided(s: Sys, t: Sys, i: nat, v: Verdict, big: bool)
    requires i < |s.callers| && s.callers[i].obj < |s.objs|
  {
    var c := s.callers[i];
    && |t.callers| == |s.callers| && t.callers[i].place == (if v.Admitted? then Live else Out)
    && t.callers == s.callers[i := t.callers[i]] && t.sessions == s.sessions
    && t.callers[i] == c.(place := t.callers[i].place, big := t.callers[i].big)
    && (v.Admitted? ==> t.callers[i].big == big)
    && t.objs == s.objs[c.obj := AfterAcquire(s.objs[c.obj], v, c.infoHash, c.path, big)]
  }

  lemma RunTryBig(l: Limits, s: Sys, i: nat, big: bool)
    requires AboutToReserve(s, i)
    ensures Enabled(l, s, TryBig(i, big))
    ensures var c := s.callers[i];
      !(big && BigFull(l, s.objs[c.obj], c.infoHash, c.path)) ==>
        Do(l, s, TryBig(i, big)) == Set(s.(callers := s.callers[i := c.(place := Reserved, big := big)]), c.obj,
                                        Reserve(s.objs[c.obj], c.infoHash, c.path, big))
  {
  }

  lemma RunRejected(l: Limits, s: Sys, i: nat, big: bool, ips: int)
    requires AboutToReserve(s, i)
    requires var v := Outlook(l, s, i, big, ips); v == RejectedPath || v == RejectedIPs
    ensures var v := Outlook(l, s, i, big, ips);
      CanRun(l, s, StepsFor(v, i, big)) && Decided(s, Run(l, s, StepsFor(v, i, big)), i, v, big)
  {
    var v, c := Outlook(l, s, i, big, ips), s.callers[i];
    var obj := s.objs[c.obj];
    hide BigFull, AddBig, DropBig, Conc;
    RunTryBig(l, s, i, big);
    RunTwo(l, s, TryBig(i, big), CheckPath(i));
    var checked := [TryBig(i, big)] + [CheckPath(i)];
    if v == RejectedIPs {
      AppendOne(l, s, checked, RejectIPs(i));
      checked := checked + [RejectIPs(i)];
    }
    var rejecting := c.(place := Rejecting, big := big);
    assert Run(l, s, checked) == Set(s.(callers := s.callers[i := rejecting]), c.obj,
                                     Reserve(obj, c.infoHash, c.path, big));
    AppendOne(l, s, checked, DropHash(i));
  }

  lemma RunAdmitted(l: Limits, s: Sys, i: nat, big: bool, ips: int)
    requires AboutToReserve(s, i) && Outlook(l, s, i, big, ips) == Admitted
    ensures CanRun(l, s, StepsFor(Admitted, i, big))
    ensures Decided(s, Run(l, s, StepsFor(Admitted, i, big)), i, Admitted, big)
  {
    var c := s.callers[i];
    var obj := s.objs[c.obj];
    hide BigFull, AddBig, Conc, AddConc;
    RunTryBig(l, s, i, big);
    RunTwo(l, s, TryBig(i, big), CheckPath(i));
    var reserved := Reserve(obj, c.infoHash, c.path, big);
    var passed := s.callers[i := c.(place := PathOK, big := big)];
    assert Run(l, s, [TryBig(i, big)] + [CheckPath(i)]) == Set(s.(callers := passed), c.obj, reserved);
    AppendOne(l, s, [TryBig(i, big)] + [CheckPath(i)], AddToTotal(i));
    AppendOne(l, s, [TryBig(i, big)] + [CheckPath(i)] + [AddToTotal(i)], AddToConc(i));
  }

  lemma RunChecks(l: Limits, s: Sys, i: nat, big: bool, ips: int)
    requires AboutToReserve(s, i)
    ensures var v := Outlook(l, s, i, big, ips);
      CanRun(l, s, StepsFor(v, i, big)) && Decided(s, Run(l, s, StepsFor(v, i, big)), i, v, big)
  {
    match Outlook(l, s, i, big, ips)
    case Admitted => RunAdmitted(l, s, i, big, ips);
    case RejectedBig => RunOne(l, s, TryBig(i, big));
    case _ => RunRejected(l, s, i, big, ips);
  }

  /** getSession: makes the object when the session has none. */
  function Opened(s: Sys, id: string): Sys
  {
    if id in s.sessions then s else s.(sessions := s.sessions[id := |s.objs|], objs := s.objs + [EMPTY])
  }

  function AcquireSteps(l: Limits, s: Sys, c: Caller, i: nat, ips: int): seq<Step>
    requires c.id in s.sessions ==> s.sessions[c.id] < |s.objs|
  {
    var v := Decide(l, Current(s, c.id), c.infoHash, c.path, c.big, ips);
    [Get(i, c.id, c.infoHash, c.path)] + [CheckTotal(i)] + StepsFor(v, i, c.big)
  }

  /** The steps of one Acquire taken without interruption do what the atomic Acquire says. want names the
      request: its session, file and whether the size lookup takes it for big. */
  lemma AcquireAlone(l: Limits, s: Sys, want: Caller, i: nat, ips: int)
    requires i < |s.callers| && s.callers[i].place.Out? && want.id != ""
    requires want.id in s.sessions ==> s.sessions[want.id] < |s.objs|
    ensures CanRun(l, s, AcquireSteps(l, s, want, i, ips))
    ensures var t, open := Run(l, s, AcquireSteps(l, s, want, i, ips)), Opened(s, want.id);
      var o := open.sessions[want.id];
      var v := Decide(l, Current(s, want.id), want.infoHash, want.path, want.big, ips);
      && t.sessions == open.sessions && |t.callers| == |s.callers| && o < |open.objs|
      && t.objs == open.objs[o := AfterAcquire(Current(s, want.id), v, want.infoHash, want.path, want.big)]
      && t.callers == s.callers[i := t.callers[i]]
      && (if v.Admitted? then t.callers[i] == want.(place := Live, obj := o) else t.callers[i].place.Out?)
  {
    var get, check := Get(i, want.id, want.infoHash, want.path), CheckTotal(i);
    var open := Opened(s, want.id);
    var o, obj := open.sessions[want.id], Current(s, want.id);
    RunTwo(l, s, get, check);
    var a := Run(l, s, [get] + [check]);
    assert open.objs[o] == obj && open.objs[o := obj] == open.objs;
    if Full(l.maxTotal, obj.total) {
      assert [get] + [check] + [] == [get] + [check];
    } else {
      assert a.callers[i] == Caller(TotalOK, o, want.id, want.infoHash, want.path, false);
      assert a.objs[o] == obj;
      hide Do, Enabled;
      RunChecks(l, a, i, want.big, ips);
      RunAppend(l, s, [get] + [check], StepsFor(Outlook(l, a, i, want.big, ips), i, want.big));
    }
  }

  function ReleaseSteps(s: Sys, i: nat): seq<Step>
    requires i < |s.callers| && s.callers[i].obj < |s.objs|
  {
    [DropConc(i)] + [DropHash(i)] + [DropTotal(i)] + if s.objs[s.callers[i].obj].total <= 1 then [Delete(i)] else []
  }

  /** The steps of one release taken without interruption undo the request's counts and delete the session
      with its last request. */
  lemma ReleaseAlone(l: Limits, s: Sys, i: nat)
    requires i < |s.callers| && s.callers[i].place.Live? && s.callers[i].obj < |s.objs|
    ensures CanRun(l, s, ReleaseSteps(s, i))
    ensures var t, c := Run(l, s, ReleaseSteps(s, i)), s.callers[i];
      var obj := s.objs[c.obj];
      && t.objs == s.objs[c.obj := Leave(obj, c.infoHash, c.path, c.big)]
      && t.callers == s.callers[i := c.(place := Out)]
      && t.sessions == if obj.total <= 1 then s.sessions - {c.id} else s.sessions
  {
    var c := s.callers[i];
    var obj := s.objs[c.obj];
    hide DropBig, AddConc, Conc;
    var steps := [DropConc(i)] + [DropHash(i)];
    RunTwo(l, s, DropConc(i), DropHash(i));
    assert Run(l, s, steps) == Set(Go(s, i, HashDown), c.obj,
                                   Unreserve(AddConc(obj, Key(c), -1), c.infoHash, c.path, c.big));
    AppendOne(l, s, steps, DropTotal(i));
    steps := steps + [DropTotal(i)];
    if obj.total <= 1 {
      AppendOne(l, s, steps, Delete(i));
    } else {
      assert steps + [] == steps;
    }
  }
}
