// When the caps hold for a session ID, whose requests may be spread over several objects.
module SessionIds {
  import opened Basics
  import opened SessionState
  import opened SessionSystem
  import opened SessionRaces

  /** Inside a call of Acquire or of a release for this ID. */
  ghost function Inside(id: string): Caller -> bool
  {
    (c: Caller) => c.id == id && !c.place.Out? && !c.place.Live?
  }

  /** The requests of an ID, on whatever objects. */
  ghost function OfId(id: string): Caller -> bool
  {
    (c: Caller) => c.id == id && (c.place.Counted? || c.place.Live? || c.place.ConcDown? || c.place.HashDown?)
  }

  ghost function OnPath(id: string, key: string): Caller -> bool
  {
    (c: Caller) => c.id == id && Key(c) == key && c.place.Live?
  }

  // ---------------------------------------------------------------- one call of an ID at a time

  /** The callers of an ID are those on the object that the table has for it, and no other ID has that object. */
  ghost predicate OneObject(s: Sys, id: string)
  {
    && (forall c | c in s.callers && !c.place.Out? :: c.id == id <==> id in s.sessions && c.obj == s.sessions[id])
    && (id in s.sessions ==> forall other | other in s.sessions && other != id :: s.sessions[other] != s.sessions[id])
  }

  /** A call that deletes its session was the last on its object. */
  lemma LastOnItsObject(l: Limits, s: Sys, i: nat)
    requires Inv(l, s) && i < |s.callers| && s.callers[i].place.Leaving? && OneObject(s, s.callers[i].id)
    requires Count(s.callers, Inside(s.callers[i].id)) <= 1 && s.objs[s.callers[i].obj].total <= 0
    ensures forall j | 0 <= j < |s.callers| && j != i && s.callers[j].id == s.callers[i].id :: s.callers[j].place.Out?
  {
    var id, o := s.callers[i].id, s.callers[i].obj;
    assert s.callers[i] in s.callers;
    forall j | 0 <= j < |s.callers| && j != i && s.callers[j].id == id ensures s.callers[j].place.Out? {
      var c := s.callers[j];
      assert c in s.callers;
      if c.place.Live? {
        CountPositive(s.callers, HoldsTotal(o));
      } else if !c.place.Out? {
        CountTwo(s.callers, Inside(id), i, j);
      }
    }
  }

  /** A session leaves the table exactly when one of its releases, on an object that nobody is counted on by then,
      deletes it; until then it keeps its object. */
  lemma SessionGoesIff(l: Limits, s: Sys, step: Step, id: string)
    requires Inv(l, s) && Enabled(l, s, step) && id in s.sessions
    ensures var t, c := Do(l, s, step), s.callers[step.i];
      && (id !in t.sessions <==> step.Delete? && c.id == id && Count(s.callers, HoldsTotal(c.obj)) == 0)
      && (id in t.sessions ==> t.sessions[id] == s.sessions[id])
  {
    hide Count, HoldsTotal, BigInRange, Conc, Big, AddBig, DropBig, AddConc, BigFull;
  }

  lemma CountTwo<T>(s: seq<T>, p: T -> bool, i: nat, j: nat)
    requires i < |s| && j < |s| && i != j && p(s[i]) && p(s[j])
    ensures Count(s, p) >= 2
  {
    var rest := s[..i] + s[i + 1..];
    CountRemove(s, p, i);
    assert rest[if j < i then j else j - 1] == s[j];
    CountPositive(rest, p);
  }

  lemma MoveOneObject(s: Sys, t: Sys, i: nat, id: string)
    requires OneObject(s, id) && t.sessions == s.sessions && i < |s.callers| == |t.callers|
    requires t.callers == s.callers[i := t.callers[i]]
    requires !s.callers[i].place.Out? && t.callers[i].id == s.callers[i].id && t.callers[i].obj == s.callers[i].obj
    ensures OneObject(t, id)
  {
    assert s.callers[i] in s.callers;
    forall c | c in t.callers && !c.place.Out?
      ensures c.id == id <==> id in t.sessions && c.obj == t.sessions[id]
    {
      assert c == t.callers[i] || c in s.callers;
    }
  }

  lemma GetOneObject(l: Limits, s: Sys, step: Step, id: string)
    requires Inv(l, s) && Enabled(l, s, step) && step.Get? && OneObject(s, id)
    ensures OneObject(Do(l, s, step), id)
  {
    var t := Do(l, s, step);
    forall c | c in t.callers && !c.place.Out?
      ensures c.id == id <==> id in t.sessions && c.obj == t.sessions[id]
    {
      assert c == t.callers[step.i] || (c in s.callers && SaneCaller(s, c));
    }
  }

  lemma DeleteOneObject(l: Limits, s: Sys, step: Step, id: string)
    requires Inv(l, s) && Enabled(l, s, step) && step.Delete? && OneObject(s, id)
    requires Count(s.callers, Inside(id)) <= 1
    ensures OneObject(Do(l, s, step), id)
  {
    var t, i := Do(l, s, step), step.i;
    assert s.callers[i] in s.callers;
    if s.callers[i].id == id && s.objs[s.callers[i].obj].total <= 0 {
      LastOnItsObject(l, s, i);
    }
    forall c | c in t.callers && !c.place.Out?
      ensures c.id == id <==> id in t.sessions && c.obj == t.sessions[id]
    {
      var j :| 0 <= j < |t.callers| && t.callers[j] == c;
      assert j != i && c == s.callers[j];
    }
  }

  lemma StepOneObject(l: Limits, s: Sys, step: Step, id: string)
    requires Inv(l, s) && Enabled(l, s, step) && OneObject(s, id) && Count(s.callers, Inside(id)) <= 1
    ensures OneObject(Do(l, s, step), id)
  {
    if step.Get? {
      GetOneObject(l, s, step, id);
    } else if step.Delete? {
      DeleteOneObject(l, s, step, id);
    } else {
      hide Inv, OneObject, AddBig, DropBig, AddConc, BigFull, Conc;
      MoveOneObject(s, Do(l, s, step), step.i, id);
    }
  }

  /** On the object that the table has for the ID both caps are kept with whoever is about to add. */
  ghost predicate IdWithin(l: Limits, s: Sys, id: string, key: string)
  {
    && OneObject(s, id)
    && (id in s.sessions ==>
          && (l.maxTotal > 0 ==> TotalWithin(l, s, s.sessions[id], 1))
          && (l.maxPerPath > 0 ==> PathWithin(l, s, s.sessions[id], key, 1)))
  }

  lemma CheckingIsInside(s: Sys, id: string, key: string)
    requires OneObject(s, id) && id in s.sessions
    ensures Count(s.callers, Checking(s.sessions[id])) <= Count(s.callers, Inside(id))
    ensures Count(s.callers, CheckingPath(s.sessions[id], key)) <= Count(s.callers, Inside(id))
  {
    CountImplies(s.callers, Checking(s.sessions[id]), Inside(id));
    CountImplies(s.callers, CheckingPath(s.sessions[id], key), Inside(id));
  }

  lemma NewObjectWithin(l: Limits, s: Sys, step: Step, id: string, key: string)
    requires Inv(l, s) && Enabled(l, s, step) && id !in s.sessions && id in Do(l, s, step).sessions
    ensures var t := Do(l, s, step); var o := t.sessions[id];
      && (l.maxTotal > 0 ==> TotalWithin(l, t, o, 1))
      && (l.maxPerPath > 0 ==> PathWithin(l, t, o, key, 1))
  {
    var t := Do(l, s, step);
    forall c | c in t.callers ensures !Checking(|s.objs|)(c) && !CheckingPath(|s.objs|, key)(c) {
      assert c == t.callers[step.i] || (c in s.callers && SaneCaller(s, c));
    }
    CountPositive(t.callers, Checking(|s.objs|));
    CountPositive(t.callers, CheckingPath(|s.objs|, key));
  }

  lemma ObjectStays(l: Limits, s: Sys, step: Step, id: string)
    requires Enabled(l, s, step) && id in s.sessions && id in Do(l, s, step).sessions
    ensures Do(l, s, step).sessions[id] == s.sessions[id]
  {
  }

  lemma StepIdWithin(l: Limits, s: Sys, step: Step, id: string, key: string)
    requires Inv(l, s) && Enabled(l, s, step) && IdWithin(l, s, id, key)
    requires Count(s.callers, Inside(id)) <= 1 && Count(Do(l, s, step).callers, Inside(id)) <= 1
    ensures IdWithin(l, Do(l, s, step), id, key)
  {
    var t := Do(l, s, step);
    StepOneObject(l, s, step, id);
    if id in t.sessions {
      CheckingIsInside(t, id, key);
      if id in s.sessions {
        ObjectStays(l, s, step, id);
        if l.maxTotal > 0 { StepTotalWithin(l, s, step, s.sessions[id], 1); }
        if l.maxPerPath > 0 { StepPathWithin(l, s, step, s.sessions[id], key, 1); }
      } else {
        NewObjectWithin(l, s, step, id, key);
      }
    }
    hide Do, Enabled, Inv, OneObject, TotalWithin, PathWithin;
  }

  lemma {:induction false} RunIdWithin(l: Limits, s: Sys, steps: seq<Step>, id: string, key: string)
    requires Inv(l, s) && CanRun(l, s, steps) && IdWithin(l, s, id, key) && CrowdAtMost(l, s, steps, Inside(id), 1)
    ensures IdWithin(l, Run(l, s, steps), id, key) && Inv(l, Run(l, s, steps))
    decreases |steps|
  {
    hide Do, Enabled, Inv, IdWithin;
    if steps != [] {
      StepInv(l, s, steps[0]);
      StepIdWithin(l, s, steps[0], id, key);
      RunIdWithin(l, Do(l, s, steps[0]), steps[1..], id, key);
    }
  }

  /** All requests of the ID are then counted on its one object. */
  lemma CountsOfId(l: Limits, s: Sys, id: string, key: string)
    requires Inv(l, s) && IdWithin(l, s, id, key)
    ensures l.maxTotal > 0 ==> Count(s.callers, OfId(id)) <= l.maxTotal
    ensures l.maxPerPath > 0 ==> Count(s.callers, OnPath(id, key)) <= l.maxPerPath
  {
    if id in s.sessions {
      var o := s.sessions[id];
      CountImplies(s.callers, OfId(id), HoldsTotal(o));
      CountImplies(s.callers, OnPath(id, key), HoldsConc(o, key));
    } else {
      CountPositive(s.callers, OfId(id));
      CountPositive(s.callers, OnPath(id, key));
    }
  }

  /** While the calls of one ID do not overlap, whatever other sessions do meanwhile, the ID keeps both caps. */
  lemma IdWithinCaps(l: Limits, s: Sys, steps: seq<Step>, id: string, key: string)
    requires Start(s) && CanRun(l, s, steps) && CrowdAtMost(l, s, steps, Inside(id), 1)
    ensures l.maxTotal > 0 ==> Count(Run(l, s, steps).callers, OfId(id)) <= l.maxTotal
    ensures l.maxPerPath > 0 ==> Count(Run(l, s, steps).callers, OnPath(id, key)) <= l.maxPerPath
  {
    RunIdWithin(l, s, steps, id, key);
    CountsOfId(l, Run(l, s, steps), id, key);
  }

  // ---------------------------------------------------------------- two calls of an ID at a time

  /** The steps of one caller add at most that caller to a crowd. */
  lemma {:induction false} SoloCrowd(l: Limits, s: Sys, steps: seq<Step>, i: nat, p: Caller -> bool, k: nat)
    requires CanRun(l, s, steps) && i < |s.callers| && forall step | step in steps :: step.i == i
    requires Count(s.callers, p) + (if p(s.callers[i]) then 0 else 1) <= k
    ensures CrowdAtMost(l, s, steps, p, k)
    decreases |steps|
  {
    if steps != [] {
      var t := Do(l, s, steps[0]);
      assert steps[0] in steps;
      OneMoves(l, s, steps[0]);
      CountUpdate(s.callers, p, i, t.callers[i]);
      hide Do, Enabled;
      SoloCrowd(l, t, steps[1..], i, p, k);
    }
  }

  lemma OneMoves(l: Limits, s: Sys, step: Step)
    requires Enabled(l, s, step)
    ensures var t := Do(l, s, step); |t.callers| == |s.callers| && t.callers == s.callers[step.i := t.callers[step.i]]
  {
  }

  lemma {:induction false} CrowdThen(l: Limits, s: Sys, a: seq<Step>, b: seq<Step>, p: Caller -> bool, k: nat)
    requires CanRun(l, s, a) && CrowdAtMost(l, s, a, p, k)
    requires CanRun(l, Run(l, s, a), b) && CrowdAtMost(l, Run(l, s, a), b, p, k)
    ensures CanRun(l, s, a + b) && CrowdAtMost(l, s, a + b, p, k) && Run(l, s, a + b) == Run(l, Run(l, s, a), b)
    decreases |a|
  {
    hide Do, Enabled;
    RunAppend(l, s, a, b);
    if a == [] {
      assert a + b == b;
    } else {
      CrowdThen(l, Do(l, s, a[0]), a[1..], b, p, k);
      assert (a + b)[1..] == a[1..] + b;
    }
  }

  /** One caller's steps at the end of a run in which at most k callers are inside at any time. */
  lemma OneGoesOn(l: Limits, s: Sys, steps: seq<Step>, more: seq<Step>, i: nat, id: string, k: nat)
    requires CanRun(l, s, steps) && CrowdAtMost(l, s, steps, Inside(id), k) && CanRun(l, Run(l, s, steps), more)
    requires forall step | step in more :: step.i == i
    requires var a := Run(l, s, steps);
      i < |a.callers| && Count(a.callers, Inside(id)) + (if Inside(id)(a.callers[i]) then 0 else 1) <= k
    ensures CanRun(l, s, steps + more) && CrowdAtMost(l, s, steps + more, Inside(id), k)
    ensures Run(l, s, steps + more) == Run(l, Run(l, s, steps), more)
  {
    hide Do, Enabled, Inside;
    SoloCrowd(l, Run(l, s, steps), more, i, Inside(id), k);
    CrowdThen(l, s, steps, more, Inside(id), k);
  }

  function Request(place: Place, o: nat): Caller { Caller(place, o, "id", "h", "", false) }

  predicate Asked(c: Caller, place: Place) { c == Request(place, c.obj) }

  /** The first j of n callers are admitted, for one path of one ID, and the table has no session. */
  ghost predicate Stranded(s: Sys, n: nat, j: nat)
  {
    && j <= n && |s.callers| == n + 1 && s.sessions == map[]
    && (forall i | 0 <= i < j :: Asked(s.callers[i], Live))
    && (forall i | j <= i <= n :: s.callers[i].place.Out?)
  }

  /** Caller j has fetched a new object, and caller n is Out or admitted on it. */
  ghost predicate Fetched(s: Sys, n: nat, j: nat, o: nat)
  {
    && j < n && |s.callers| == n + 1 && o < |s.objs| && s.callers[j] == Request(Fresh, o)
    && (forall i | 0 <= i < j :: Asked(s.callers[i], Live))
    && (forall i | j < i <= n :: s.callers[i].place.Out? || (i == n && s.callers[i] == Request(Live, o)))
  }

  lemma FetchedCrowd(s: Sys, n: nat, j: nat, o: nat)
    requires Fetched(s, n, j, o)
    ensures Count(s.callers, Inside("id")) <= 1
  {
    CountBetween(s.callers, Inside("id"), j, j + 1);
  }

  lemma Fetch(l: Limits, s: Sys, steps: seq<Step>, n: nat, j: nat, k: nat) returns (longer: seq<Step>)
    requires k >= 2 && CanRun(l, s, steps) && CrowdAtMost(l, s, steps, Inside("id"), k)
    requires Stranded(Run(l, s, steps), n, j) && j < n
    ensures CanRun(l, s, longer) && CrowdAtMost(l, s, longer, Inside("id"), k)
    ensures var a, b := Run(l, s, steps), Run(l, s, longer);
      && Fetched(b, n, j, |a.objs|) && b.callers[n].place.Out?
      && b.sessions == map["id" := |a.objs|] && b.objs == a.objs + [EMPTY]
  {
    var a, get := Run(l, s, steps), Get(j, "id", "h", "");
    CountBetween(a.callers, Inside("id"), 0, 0);
    RunOne(l, a, get);
    OneGoesOn(l, s, steps, [get], j, "id", k);
    longer := steps + [get];
  }

  /** No request is counted on the object, in all or on the path. */
  predicate Unused(obj: Session) { obj.total == 0 && Conc(obj, PathKey("h", "")) == 0 }

  lemma UnusedAdmits(l: Limits, obj: Session)
    requires Unused(obj)
    ensures Decide(l, obj, "h", "", false, 0) == Admitted == DecideRest(l, obj, "h", "", false, 0)
  {
  }

  lemma UnusedAgain()
    ensures Unused(EMPTY) && Admit(EMPTY, "h", "", false).total == 1
    ensures Unused(Leave(Admit(EMPTY, "h", "", false), "h", "", false))
  {
  }

  /** A request on an object that is not in use is admitted. */
  lemma Come(l: Limits, s: Sys, i: nat, o: nat) returns (steps: seq<Step>)
    requires i < |s.callers| && o < |s.objs| && s.callers[i].place.Out? && s.objs[o] == EMPTY
    requires s.sessions == map["id" := o]
    ensures CanRun(l, s, steps) && forall step | step in steps :: step.i == i
    ensures var t := Run(l, s, steps);
      && t.callers == s.callers[i := Request(Live, o)] && t.sessions == s.sessions
      && t.objs == s.objs[o := Admit(EMPTY, "h", "", false)]
  {
    var want, live := Request(Out, 0), Request(Live, o);
    var admitted := Admit(EMPTY, "h", "", false);
    assert Unused(EMPTY);
    UnusedAdmits(l, EMPTY);
    AcquireSteppers(l, s, want, i, 0);
    assert Opened(s, "id") == s && Current(s, "id") == EMPTY;
    assert AfterAcquire(EMPTY, Admitted, "h", "", false) == admitted;
    assert want == Caller(Out, 0, "id", "h", "", false) && live == want.(place := Live, obj := o);
    hide *;
    AcquireAlone(l, s, want, i, 0);
    steps := AcquireSteps(l, s, want, i, 0);
  }

  lemma AcquireSteppers(l: Limits, s: Sys, c: Caller, i: nat, ips: int)
    requires c.id in s.sessions ==> s.sessions[c.id] < |s.objs|
    ensures forall step | step in AcquireSteps(l, s, c, i, ips) :: step.i == i
  {
    hide Decide;
  }

  /** Caller n leaves again, which deletes the session. */
  lemma GoAgain(l: Limits, s: Sys, n: nat, j: nat, o: nat) returns (steps: seq<Step>)
    requires Fetched(s, n, j, o) && s.callers[n].place.Live? && s.objs[o] == Admit(EMPTY, "h", "", false)
    requires s.sessions == map["id" := o]
    ensures CanRun(l, s, steps) && forall step | step in steps :: step.i == n
    ensures var t := Run(l, s, steps);
      Fetched(t, n, j, o) && t.callers[n].place.Out? && Unused(t.objs[o]) && t.sessions == map[]
  {
    UnusedAgain();
    hide Do, Enabled, Admit, Leave, Unused;
    ReleaseAlone(l, s, n);
    hide CanRun, Run;
    steps := ReleaseSteps(s, n);
  }

  lemma ComeAndGo(l: Limits, s: Sys, steps: seq<Step>, n: nat, j: nat, o: nat, k: nat) returns (longer: seq<Step>)
    requires k >= 2 && CanRun(l, s, steps) && CrowdAtMost(l, s, steps, Inside("id"), k)
    requires var b := Run(l, s, steps);
      Fetched(b, n, j, o) && b.callers[n].place.Out? && b.objs[o] == EMPTY && b.sessions == map["id" := o]
    ensures CanRun(l, s, longer) && CrowdAtMost(l, s, longer, Inside("id"), k)
    ensures var t := Run(l, s, longer);
      Fetched(t, n, j, o) && t.callers[n].place.Out? && Unused(t.objs[o]) && t.sessions == map[]
  {
    hide Do, Enabled, CanRun, Run, CrowdAtMost, Inside, Unused, Admit;
    FetchedCrowd(Run(l, s, steps), n, j, o);
    var coming := Come(l, Run(l, s, steps), n, o);
    OneGoesOn(l, s, steps, coming, n, "id", k);
    longer := steps + coming;
    FetchedCrowd(Run(l, s, longer), n, j, o);
    var going := GoAgain(l, Run(l, s, longer), n, j, o);
    OneGoesOn(l, s, longer, going, n, "id", k);
    longer := longer + going;
  }

  /** Caller j has loaded the total of the object whose session is gone. */
  ghost predicate Loaded(s: Sys, n: nat, j: nat, o: nat)
  {
    && j < n && |s.callers| == n + 1 && o < |s.objs| && s.callers[j] == Request(TotalOK, o) && Unused(s.objs[o])
    && (forall i | 0 <= i < j :: Asked(s.callers[i], Live))
    && (forall i | j < i <= n :: s.callers[i].place.Out?) && s.sessions == map[]
  }

  lemma Load(l: Limits, s: Sys, n: nat, j: nat, o: nat)
    requires Fetched(s, n, j, o) && s.callers[n].place.Out? && Unused(s.objs[o]) && s.sessions == map[]
    ensures CanRun(l, s, [CheckTotal(j)]) && Loaded(Run(l, s, [CheckTotal(j)]), n, j, o)
  {
    RunOne(l, s, CheckTotal(j));
    hide CanRun, Run, Conc, PathKey;
  }

  lemma Finish(l: Limits, s: Sys, n: nat, j: nat, o: nat) returns (steps: seq<Step>)
    requires Loaded(s, n, j, o)
    ensures CanRun(l, s, steps) && (forall step | step in steps :: step.i == j) && Stranded(Run(l, s, steps), n, j + 1)
  {
    UnusedAdmits(l, s.objs[o]);
    hide Do, Enabled, AfterAcquire, Unused, DecideRest;
    RunChecks(l, s, j, false, 0);
    hide CanRun, Run;
    steps := StepsFor(Admitted, j, false);
  }

  /** Caller j goes on with the object whose session is gone. */
  lemma GoesOn(l: Limits, s: Sys, steps: seq<Step>, n: nat, j: nat, o: nat, k: nat) returns (longer: seq<Step>)
    requires k >= 2 && CanRun(l, s, steps) && CrowdAtMost(l, s, steps, Inside("id"), k)
    requires var t := Run(l, s, steps);
      Fetched(t, n, j, o) && t.callers[n].place.Out? && Unused(t.objs[o]) && t.sessions == map[]
    ensures CanRun(l, s, longer) && CrowdAtMost(l, s, longer, Inside("id"), k)
    ensures Stranded(Run(l, s, longer), n, j + 1)
  {
    hide Do, Enabled, CanRun, Run, CrowdAtMost, Stranded, Unused;
    FetchedCrowd(Run(l, s, steps), n, j, o);
    Load(l, Run(l, s, steps), n, j, o);
    OneGoesOn(l, s, steps, [CheckTotal(j)], j, "id", k);
    longer := steps + [CheckTotal(j)];
    CountBetween(Run(l, s, longer).callers, Inside("id"), j, j + 1);
    var rest := Finish(l, Run(l, s, longer), n, j, o);
    OneGoesOn(l, s, longer, rest, j, "id", k);
    longer := longer + rest;
  }

  lemma {:induction false} StrandOneByOne(l: Limits, n: nat, j: nat, k: nat) returns (steps: seq<Step>)
    requires k >= 2 && j <= n
    ensures CanRun(l, Nobody(n + 1), steps) && CrowdAtMost(l, Nobody(n + 1), steps, Inside("id"), k)
    ensures Stranded(Run(l, Nobody(n + 1), steps), n, j)
  {
    var s := Nobody(n + 1);
    if j == 0 {
      steps := [];
      CountBetween(s.callers, Inside("id"), 0, 0);
    } else {
      hide Do, Enabled, Stranded, Fetched, Nobody;
      steps := StrandOneByOne(l, n, j - 1, k);
      var o := |Run(l, s, steps).objs|;
      steps := Fetch(l, s, steps, n, j - 1, k);
      steps := ComeAndGo(l, s, steps, n, j - 1, o, k);
      steps := GoesOn(l, s, steps, n, j - 1, o, k);
    }
  }

  /** With two calls of one ID at a time nothing is capped for it: under all settings any number of its requests can be
      live on one path. */
  lemma AnyNumberForOneId(l: Limits, n: nat, k: nat) returns (s: Sys, steps: seq<Step>)
    requires k >= 2
    ensures Start(s) && CanRun(l, s, steps) && CrowdAtMost(l, s, steps, Inside("id"), k)
    ensures Count(Run(l, s, steps).callers, OnPath("id", PathKey("h", ""))) == n
    ensures Count(Run(l, s, steps).callers, OfId("id")) == n
  {
    s := Nobody(n + 1);
    steps := StrandOneByOne(l, n, n, k);
    var callers := Run(l, s, steps).callers;
    CountAll(callers[..n], OnPath("id", PathKey("h", "")));
    CountAll(callers[..n], OfId("id"));
    assert callers[..|callers| - 1] == callers[..n];
  }

  ghost predicate IdCapKept(l: Limits, s: Sys, steps: seq<Step>, id: string, k: nat)
  {
    Start(s) && CanRun(l, s, steps) && CrowdAtMost(l, s, steps, Inside(id), k) ==>
      Count(Run(l, s, steps).callers, OfId(id)) <= l.maxTotal
  }

  ghost predicate IdPathCapKept(l: Limits, s: Sys, steps: seq<Step>, id: string, key: string, k: nat)
  {
    Start(s) && CanRun(l, s, steps) && CrowdAtMost(l, s, steps, Inside(id), k) ==>
      Count(Run(l, s, steps).callers, OnPath(id, key)) <= l.maxPerPath
  }

  /** Under every cap on the total, the requests of an ID keep it in every run with at most k calls of the ID at a time
      exactly when k is at most one. */
  lemma IdCapKeptIff(l: Limits, k: nat)
    requires l.maxTotal > 0
    ensures (forall s, steps, id :: IdCapKept(l, s, steps, id, k)) <==> k <= 1
  {
    if k <= 1 {
      forall s, steps, id ensures IdCapKept(l, s, steps, id, k) {
        if Start(s) && CanRun(l, s, steps) && CrowdAtMost(l, s, steps, Inside(id), k) {
          CrowdGrows(l, s, steps, Inside(id), k, 1);
          IdWithinCaps(l, s, steps, id, "");
        }
      }
    } else {
      var s, steps := AnyNumberForOneId(l, l.maxTotal + 1, k);
      assert !IdCapKept(l, s, steps, "id", k);
    }
  }

  /** Likewise every cap on the requests of a path. */
  lemma IdPathCapKeptIff(l: Limits, k: nat)
    requires l.maxPerPath > 0
    ensures (forall s, steps, id, key :: IdPathCapKept(l, s, steps, id, key, k)) <==> k <= 1
  {
    if k <= 1 {
      forall s, steps, id, key ensures IdPathCapKept(l, s, steps, id, key, k) {
        if Start(s) && CanRun(l, s, steps) && CrowdAtMost(l, s, steps, Inside(id), k) {
          CrowdGrows(l, s, steps, Inside(id), k, 1);
          IdWithinCaps(l, s, steps, id, key);
        }
      }
    } else {
      var s, steps := AnyNumberForOneId(l, l.maxPerPath + 1, k);
      assert !IdPathCapKept(l, s, steps, "id", PathKey("h", ""), k);
    }
  }

  lemma {:induction false} CrowdGrows(l: Limits, s: Sys, steps: seq<Step>, p: Caller -> bool, k: nat, m: nat)
    requires CanRun(l, s, steps) && CrowdAtMost(l, s, steps, p, k) && k <= m
    ensures CrowdAtMost(l, s, steps, p, m)
    decreases |steps|
  {
    hide Do, Enabled;
    if steps != [] { CrowdGrows(l, Do(l, s, steps[0]), steps[1..], p, k, m); }
  }
}
