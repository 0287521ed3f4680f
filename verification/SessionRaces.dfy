// What interleaved requests of one session can do to its caps and to the table of sessions.
module SessionRaces {
  import opened Basics
  import opened SessionState
  import opened SessionSystem

  // ---------------------------------------------------------------- callers walking through Acquire

  /** Callers of one session, each with a file of its own or all with the same, on the session's first object. */
  function Path(shared: bool, i: nat): string { if shared then "" else seq(i, _ => 'a') }

  function Walker(shared: bool, i: nat, place: Place): Caller { Caller(place, 0, "id", "h", Path(shared, i), false) }

  ghost predicate Lineup(l: Limits, s: Sys, places: seq<Place>, shared: bool)
  {
    && Inv(l, s) && |s.callers| == |places|
    && (forall i | 0 <= i < |places| ::
          if places[i].Out? then s.callers[i].place.Out? else s.callers[i] == Walker(shared, i, places[i]))
    && (if s.objs == [] then s.sessions == map[] && (forall p | p in places :: p.Out?)
        else |s.objs| == 1 && s.sessions == map["id" := 0])
  }

  predicate IsWalking(p: Place)
  {
    p.Out? || p.Fresh? || p.TotalOK? || p.Reserved? || p.PathOK? || p.Counted?
  }

  function Next(p: Place): Place
  {
    match p
    case Out => Fresh
    case Fresh => TotalOK
    case TotalOK => Reserved
    case Reserved => PathOK
    case PathOK => Counted
    case _ => Live
  }

  function StepAt(p: Place, i: nat, shared: bool): Step
  {
    match p
    case Out => Get(i, "id", "h", Path(shared, i))
    case Fresh => CheckTotal(i)
    case TotalOK => TryBig(i, false)
    case Reserved => CheckPath(i)
    case PathOK => AddToTotal(i)
    case _ => AddToConc(i)
  }

  function InTotal(): Place -> bool { (p: Place) => p.Counted? || p.Live? || p.ConcDown? || p.HashDown? }

  function InConc(): Place -> bool { (p: Place) => p.Live? }

  /** Between a check and its add: of the total, or of the requests on the one path. */
  function Between(ofPath: bool): Place -> bool
  {
    if ofPath then (p: Place) => p.PathOK? || p.Counted? else (p: Place) => p.TotalOK? || p.Reserved? || p.PathOK?
  }

  ghost function Crowd(ofPath: bool): Caller -> bool
  {
    if ofPath then CheckingPath(0, PathKey("h", "")) else Checking(0)
  }

  ghost predicate IsFree(l: Limits, places: seq<Place>, i: nat, shared: bool)
    requires i < |places|
  {
    && IsWalking(places[i])
    && (places[i].Fresh? ==> !Full(l.maxTotal, Count(places, InTotal())))
    && (places[i].Reserved? && shared ==> !Full(l.maxPerPath, Count(places, InConc())))
  }

  lemma TotalIs(l: Limits, s: Sys, places: seq<Place>, shared: bool)
    requires Lineup(l, s, places, shared) && s.objs != []
    ensures s.objs[0].total == Count(places, InTotal())
  {
    forall i | 0 <= i < |places| ensures HoldsTotal(0)(s.callers[i]) == InTotal()(places[i]) {}
    CountMatches(s.callers, places, HoldsTotal(0), InTotal());
  }

  lemma ConcIs(l: Limits, s: Sys, places: seq<Place>)
    requires Lineup(l, s, places, true) && s.objs != []
    ensures Conc(s.objs[0], PathKey("h", "")) == Count(places, InConc())
  {
    var holds := HoldsConc(0, PathKey("h", ""));
    forall i | 0 <= i < |places| ensures holds(s.callers[i]) == InConc()(places[i]) {}
    CountMatches(s.callers, places, holds, InConc());
  }

  /** Nobody else has the caller's own file. */
  lemma OwnPathFree(l: Limits, s: Sys, places: seq<Place>, i: nat)
    requires Lineup(l, s, places, false) && s.objs != [] && i < |places| && !places[i].Live? && !places[i].Out?
    ensures Conc(s.objs[0], Key(s.callers[i])) == 0
  {
    var key := PathKey("h", Path(false, i));
    forall c | c in s.callers ensures !HoldsConc(0, key)(c) {
      var j :| 0 <= j < |s.callers| && s.callers[j] == c;
      if !places[j].Out? && j != i { assert |Key(c)| == 2 + j && |key| == 2 + i; }
    }
    CountPositive(s.callers, HoldsConc(0, key));
  }

  lemma StepKeepsOthers(l: Limits, s: Sys, places: seq<Place>, shared: bool, i: nat)
    requires Lineup(l, s, places, shared) && i < |places| && IsFree(l, places, i, shared)
    ensures var step := StepAt(places[i], i, shared);
      && Enabled(l, s, step)
      && var t := Do(l, s, step);
      && |t.callers| == |s.callers| && t.callers == s.callers[i := t.callers[i]]
      && t.callers[i] == Walker(shared, i, Next(places[i]))
      && |t.objs| == 1 && t.sessions == map["id" := 0]
  {
    if s.objs != [] {
      TotalIs(l, s, places, shared);
      if shared { ConcIs(l, s, places); }
      else if places[i].Reserved? { OwnPathFree(l, s, places, i); }
    } else {
      assert places[i] in places;
    }
    hide Inv, Conc, AddConc, BigFull, AddBig, Path;
  }

  /** A caller that nothing stops moves one place on. */
  lemma MoveOne(l: Limits, s: Sys, places: seq<Place>, shared: bool, i: nat)
    requires Lineup(l, s, places, shared) && i < |places| && IsFree(l, places, i, shared)
    ensures Enabled(l, s, StepAt(places[i], i, shared))
    ensures Lineup(l, Do(l, s, StepAt(places[i], i, shared)), places[i := Next(places[i])], shared)
  {
    StepKeepsOthers(l, s, places, shared, i);
    StepInv(l, s, StepAt(places[i], i, shared));
    hide Do, Enabled, Inv, Path;
  }

  /** A run that has lined the callers up, with at most k of them between check and add at any time. */
  ghost predicate Reached(l: Limits, s: Sys, steps: seq<Step>, places: seq<Place>, shared: bool, k: nat)
  {
    && CanRun(l, s, steps) && CrowdAtMost(l, s, steps, Crowd(shared), k)
    && Lineup(l, Run(l, s, steps), places, shared)
  }

  lemma {:induction false} CrowdAppend(l: Limits, s: Sys, steps: seq<Step>, step: Step, p: Caller -> bool, k: nat)
    requires CanRun(l, s, steps) && CrowdAtMost(l, s, steps, p, k) && Enabled(l, Run(l, s, steps), step)
    requires Count(Do(l, Run(l, s, steps), step).callers, p) <= k
    ensures CanRun(l, s, steps + [step]) && CrowdAtMost(l, s, steps + [step], p, k)
    decreases |steps|
  {
    hide Do, Enabled;
    AppendOne(l, s, steps, step);
    if steps == [] {
      assert [] + [step] == [step] && [step][1..] == [];
    } else {
      CrowdAppend(l, Do(l, s, steps[0]), steps[1..], step, p, k);
      assert (steps + [step])[1..] == steps[1..] + [step];
    }
  }

  lemma CrowdIs(l: Limits, s: Sys, places: seq<Place>, shared: bool)
    requires Lineup(l, s, places, shared)
    ensures Count(s.callers, Crowd(shared)) == Count(places, Between(shared))
  {
    forall i | 0 <= i < |places| ensures Crowd(shared)(s.callers[i]) == Between(shared)(places[i]) {}
    CountMatches(s.callers, places, Crowd(shared), Between(shared));
  }

  lemma Walk(l: Limits, s: Sys, steps: seq<Step>, places: seq<Place>, shared: bool, k: nat, i: nat)
    returns (longer: seq<Step>)
    requires Reached(l, s, steps, places, shared, k) && i < |places| && IsFree(l, places, i, shared)
    requires Count(places[i := Next(places[i])], Between(shared)) <= k
    ensures Reached(l, s, longer, places[i := Next(places[i])], shared, k)
  {
    var step, a, moved := StepAt(places[i], i, shared), Run(l, s, steps), places[i := Next(places[i])];
    MoveOne(l, a, places, shared, i);
    CrowdIs(l, Do(l, a, step), moved, shared);
    hide Do, Enabled, Lineup, Crowd, Between, IsFree;
    CrowdAppend(l, s, steps, step, Crowd(shared), k);
    AppendOne(l, s, steps, step);
    longer := steps + [step];
  }

  /** The first m of n callers are admitted, the next ones up to j have passed all checks, and the next ones up to r the
      check of the total. */
  function Row(n: nat, m: nat, j: nat, r: nat): seq<Place>
  {
    seq(n, i => if i < m then Live else if i < j then PathOK else if i < r then Reserved else Out)
  }

  /** Nothing stops caller i, and afterwards no more than k callers are between check and add, given where such callers
      can be: those counted in total among the first admitted, and the crowd between lo and hi. */
  lemma WalkOn(l: Limits, s: Sys, steps: seq<Step>, places: seq<Place>, shared: bool, k: nat, i: nat,
      admitted: nat, lo: nat, hi: nat) returns (longer: seq<Step>)
    requires Reached(l, s, steps, places, shared, k) && i < |places| && IsWalking(places[i])
    requires forall x | 0 <= x < |places| && (InTotal()(places[x]) || InConc()(places[x])) :: x < admitted
    requires places[i].Fresh? ==> l.maxTotal <= 0 || admitted < l.maxTotal
    requires places[i].Reserved? && shared ==> l.maxPerPath <= 0 || admitted < l.maxPerPath
    requires var after := places[i := Next(places[i])];
      forall x | 0 <= x < |places| && Between(shared)(after[x]) :: lo <= x < hi
    requires lo <= hi && hi - lo <= k
    ensures Reached(l, s, longer, places[i := Next(places[i])], shared, k)
  {
    CountBetween(places, InTotal(), 0, admitted);
    CountBetween(places, InConc(), 0, admitted);
    CountBetween(places[i := Next(places[i])], Between(shared), lo, hi);
    hide Reached, Between, InTotal, InConc;
    longer := Walk(l, s, steps, places, shared, k, i);
  }

  /** Caller j passes the check of the total and everything after it that does not count. */
  lemma PassTotal(l: Limits, s: Sys, steps: seq<Step>, n: nat, m: nat, j: nat, shared: bool, k: nat)
    returns (longer: seq<Step>)
    requires m <= j < n && (if shared then m == 0 else j + 1 - m <= k)
    requires l.maxTotal <= 0 || m < l.maxTotal
    requires Reached(l, s, steps, if shared then Row(n, 0, 0, j) else Row(n, m, j, j), shared, k)
    ensures Reached(l, s, longer, if shared then Row(n, 0, 0, j + 1) else Row(n, m, j, j + 1), shared, k)
  {
    hide Reached;
    var row := if shared then Row(n, 0, 0, j) else Row(n, m, j, j);
    var hi := if shared then m else j + 1;
    longer := WalkOn(l, s, steps, row, shared, k, j, m, m, hi);
    longer := WalkOn(l, s, longer, row[j := Fresh], shared, k, j, m, m, hi);
    longer := WalkOn(l, s, longer, row[j := Fresh][j := TotalOK], shared, k, j, m, m, hi);
    assert row[j := Fresh][j := TotalOK][j := Reserved]
        == if shared then Row(n, 0, 0, j + 1) else Row(n, m, j, j + 1);
  }

  /** Caller j passes the check of its path. */
  lemma PassPath(l: Limits, s: Sys, steps: seq<Step>, n: nat, m: nat, j: nat, r: nat, shared: bool, k: nat)
    returns (longer: seq<Step>)
    requires m <= j < r <= n && j + 1 - m <= k && (!shared ==> r == j + 1)
    requires Reached(l, s, steps, Row(n, m, j, r), shared, k)
    requires shared ==> l.maxPerPath <= 0 || m < l.maxPerPath
    ensures Reached(l, s, longer, Row(n, m, j + 1, r), shared, k)
  {
    hide Reached;
    longer := WalkOn(l, s, steps, Row(n, m, j, r), shared, k, j, m, m, j + 1);
    assert Row(n, m, j, r)[j := PathOK] == Row(n, m, j + 1, r);
  }

  /** Caller m adds to both counters. */
  lemma Commit(l: Limits, s: Sys, steps: seq<Step>, n: nat, m: nat, j: nat, r: nat, shared: bool, k: nat)
    returns (longer: seq<Step>)
    requires m < j <= r <= n && j - m <= k && (!shared ==> r == j) && Reached(l, s, steps, Row(n, m, j, r), shared, k)
    ensures Reached(l, s, longer, Row(n, m + 1, j, r), shared, k)
  {
    hide Reached;
    var row := Row(n, m, j, r);
    longer := WalkOn(l, s, steps, row, shared, k, m, m + 1, m, j);
    longer := WalkOn(l, s, longer, row[m := Counted], shared, k, m, m + 1, m, j);
    assert row[m := Counted][m := Live] == Row(n, m + 1, j, r);
  }

  ghost function Nobody(n: nat): Sys { Sys(map[], [], seq(n, _ => Caller(Out, 0, "", "", "", false))) }

  lemma StartsOut(l: Limits, n: nat, shared: bool, k: nat)
    ensures Start(Nobody(n)) && Reached(l, Nobody(n), [], Row(n, 0, 0, 0), shared, k)
  {
    CountBetween(Nobody(n).callers, Crowd(shared), 0, 0);
  }

  /** m callers are admitted one after the other. */
  lemma {:induction false} AdmitInTurn(l: Limits, n: nat, m: nat, k: nat) returns (steps: seq<Step>)
    requires m <= n && k > 0 && m < l.maxTotal
    ensures Reached(l, Nobody(n), steps, Row(n, m, m, m), false, k)
  {
    hide Reached, Row, Nobody;
    if m == 0 {
      StartsOut(l, n, false, k);
      steps := [];
    } else {
      steps := AdmitInTurn(l, n, m - 1, k);
      steps := PassTotal(l, Nobody(n), steps, n, m - 1, m - 1, false, k);
      steps := PassPath(l, Nobody(n), steps, n, m - 1, m - 1, m, false, k);
      steps := Commit(l, Nobody(n), steps, n, m - 1, m, m, false, k);
    }
  }

  /** More callers pass all checks while m are admitted. */
  lemma {:induction false} PassTogether(l: Limits, n: nat, m: nat, j: nat, k: nat) returns (steps: seq<Step>)
    requires m <= j <= n && k > 0 && j - m <= k && m < l.maxTotal
    ensures Reached(l, Nobody(n), steps, Row(n, m, j, j), false, k)
    decreases j
  {
    hide Reached, Row, Nobody;
    if j == m {
      steps := AdmitInTurn(l, n, m, k);
    } else {
      steps := PassTogether(l, n, m, j - 1, k);
      steps := PassTotal(l, Nobody(n), steps, n, m, j - 1, false, k);
      steps := PassPath(l, Nobody(n), steps, n, m, j - 1, j, false, k);
    }
  }

  lemma {:induction false} CommitAll(l: Limits, n: nat, start: seq<Step>, m: nat, shared: bool, k: nat)
    returns (steps: seq<Step>)
    requires m <= n && n - m <= k && Reached(l, Nobody(n), start, Row(n, m, n, n), shared, k)
    ensures Reached(l, Nobody(n), steps, Row(n, n, n, n), shared, k)
    decreases n - m
  {
    hide Reached, Row, Nobody;
    steps := start;
    if m < n {
      steps := Commit(l, Nobody(n), steps, n, m, n, n, shared, k);
      steps := CommitAll(l, n, steps, m + 1, shared, k);
    }
  }

  /** The bound on the total is reached, under every positive cap: with k callers at most between check and add a run
      ends with maxTotal - 1 + k admitted. */
  lemma TotalReachesCrowd(l: Limits, k: nat) returns (s: Sys, steps: seq<Step>)
    requires l.maxTotal > 0 && k > 0
    ensures Start(s) && CanRun(l, s, steps) && CrowdAtMost(l, s, steps, Checking(0), k)
    ensures var t := Run(l, s, steps); |t.objs| == 1 && t.objs[0].total == l.maxTotal - 1 + k
  {
    var n := l.maxTotal - 1 + k;
    s := Nobody(n);
    StartsOut(l, n, false, k);
    steps := PassTogether(l, n, l.maxTotal - 1, n, k);
    steps := CommitAll(l, n, steps, l.maxTotal - 1, false, k);
    AllAdmitted(l, Run(l, s, steps), n, false);
  }

  lemma AllAdmitted(l: Limits, t: Sys, n: nat, shared: bool)
    requires n > 0 && Lineup(l, t, Row(n, n, n, n), shared)
    ensures |t.objs| == 1 && t.objs[0].total == n && (shared ==> Conc(t.objs[0], PathKey("h", "")) == n)
  {
    assert Row(n, n, n, n)[0] in Row(n, n, n, n);
    TotalIs(l, t, Row(n, n, n, n), shared);
    CountAll(Row(n, n, n, n), InTotal());
    CountAll(Row(n, n, n, n), InConc());
    if shared { ConcIs(l, t, Row(n, n, n, n)); }
    hide Inv;
  }

  /** All callers, on one path, pass the check of the total while nobody is admitted. */
  lemma {:induction false} LoadTotal(l: Limits, n: nat, r: nat, k: nat) returns (steps: seq<Step>)
    requires r <= n
    ensures Reached(l, Nobody(n), steps, Row(n, 0, 0, r), true, k)
  {
    hide Reached, Row, Nobody;
    if r == 0 {
      StartsOut(l, n, true, k);
      steps := [];
    } else {
      steps := LoadTotal(l, n, r - 1, k);
      steps := PassTotal(l, Nobody(n), steps, n, 0, r - 1, true, k);
    }
  }

  /** Of them m go on one after the other, and then more pass the check of the path. */
  lemma {:induction false} AdmitOnPath(l: Limits, n: nat, m: nat, k: nat) returns (steps: seq<Step>)
    requires m <= n && k > 0 && m < l.maxPerPath
    ensures Reached(l, Nobody(n), steps, Row(n, m, m, n), true, k)
  {
    hide Reached, Row, Nobody;
    if m == 0 {
      steps := LoadTotal(l, n, n, k);
    } else {
      steps := AdmitOnPath(l, n, m - 1, k);
      steps := PassPath(l, Nobody(n), steps, n, m - 1, m - 1, n, true, k);
      steps := Commit(l, Nobody(n), steps, n, m - 1, m, n, true, k);
    }
  }

  lemma {:induction false} PassPathTogether(l: Limits, n: nat, m: nat, j: nat, k: nat) returns (steps: seq<Step>)
    requires m <= j <= n && k > 0 && j - m <= k && m < l.maxPerPath
    ensures Reached(l, Nobody(n), steps, Row(n, m, j, n), true, k)
    decreases j
  {
    hide Reached, Row, Nobody;
    if j == m {
      steps := AdmitOnPath(l, n, m, k);
    } else {
      steps := PassPathTogether(l, n, m, j - 1, k);
      steps := PassPath(l, Nobody(n), steps, n, m, j - 1, n, true, k);
    }
  }

  /** So is the bound on the requests of a path, whatever the cap on the total. */
  lemma PathReachesCrowd(l: Limits, k: nat) returns (s: Sys, steps: seq<Step>)
    requires l.maxPerPath > 0 && k > 0
    ensures Start(s) && CanRun(l, s, steps) && CrowdAtMost(l, s, steps, CheckingPath(0, PathKey("h", "")), k)
    ensures var t := Run(l, s, steps); |t.objs| == 1 && Conc(t.objs[0], PathKey("h", "")) == l.maxPerPath - 1 + k
  {
    var n := l.maxPerPath - 1 + k;
    s := Nobody(n);
    StartsOut(l, n, true, k);
    steps := PassPathTogether(l, n, l.maxPerPath - 1, n, k);
    steps := CommitAll(l, n, steps, l.maxPerPath - 1, true, k);
    AllAdmitted(l, Run(l, s, steps), n, true);
  }

  ghost predicate CapKept(l: Limits, s: Sys, steps: seq<Step>, o: nat, k: nat)
  {
    Start(s) && CanRun(l, s, steps) && CrowdAtMost(l, s, steps, Checking(o), k) ==>
      var t := Run(l, s, steps); o < |t.objs| ==> t.objs[o].total <= l.maxTotal
  }

  ghost predicate PathCapKept(l: Limits, s: Sys, steps: seq<Step>, o: nat, key: string, k: nat)
  {
    Start(s) && CanRun(l, s, steps) && CrowdAtMost(l, s, steps, CheckingPath(o, key), k) ==>
      var t := Run(l, s, steps); o < |t.objs| ==> Conc(t.objs[o], key) <= l.maxPerPath
  }

  /** Under every cap on the total, the cap holds on every object in every run with at most k callers between check and
      add exactly when k is at most one. */
  lemma CapKeptIffOneAtATime(l: Limits, k: nat)
    requires l.maxTotal > 0
    ensures (forall s, steps, o :: CapKept(l, s, steps, o, k)) <==> k <= 1
  {
    if k <= 1 {
      forall s, steps, o ensures CapKept(l, s, steps, o, k) {
        if Start(s) && CanRun(l, s, steps) && CrowdAtMost(l, s, steps, Checking(o), k) {
          TotalWithinCrowd(l, s, steps, o, k);
        }
      }
    } else {
      var s, steps := TotalReachesCrowd(l, k);
      assert !CapKept(l, s, steps, 0, k);
    }
  }

  /** Likewise every cap on the requests of a path. */
  lemma PathCapKeptIffOneAtATime(l: Limits, k: nat)
    requires l.maxPerPath > 0
    ensures (forall s, steps, o, key :: PathCapKept(l, s, steps, o, key, k)) <==> k <= 1
  {
    if k <= 1 {
      forall s, steps, o, key ensures PathCapKept(l, s, steps, o, key, k) {
        if Start(s) && CanRun(l, s, steps) && CrowdAtMost(l, s, steps, CheckingPath(o, key), k) {
          PathWithinCrowd(l, s, steps, o, key, k);
        }
      }
    } else {
      var s, steps := PathReachesCrowd(l, k);
      assert !PathCapKept(l, s, steps, 0, PathKey("h", ""), k);
    }
  }

  // ---------------------------------------------------------------- sessions and their objects

  const CAP_OF_ONE := Limits(0, 0, 1, 0)
  const TWO_CALLERS := Sys(map[], [], [Caller(Out, 0, "", "", "", false), Caller(Out, 0, "", "", "", false)])

  /** A caller that fetched a session's object before the last release deleted the session lives on beside the
      session's next object: every object keeps its cap, the session ID does not. */
  lemma TwoObjectsForOneSession() returns (steps: seq<Step>)
    ensures CanRun(CAP_OF_ONE, TWO_CALLERS, steps)
    ensures var t := Run(CAP_OF_ONE, TWO_CALLERS, steps);
      && (forall o | 0 <= o < |t.objs| :: t.objs[o].total <= 1)
      && |t.callers| == 2 && t.callers[0].place.Live? && t.callers[1].place.Live?
      && t.callers[0].id == t.callers[1].id && t.callers[0].obj != t.callers[1].obj
  {
    var l, s, want := CAP_OF_ONE, TWO_CALLERS, Caller(Out, 0, "id", "h", "/a", false);
    steps := FetchedThenDeleted();
    hide Do, Enabled, AddConc;
    steps := LateComer(l, s, steps);
    var e := Run(l, s, steps);
    AcquireAlone(l, e, want, 0, 0);
    RunAppend(l, s, steps, AcquireSteps(l, e, want, 0, 0));
    steps := steps + AcquireSteps(l, e, want, 0, 0);
  }

  lemma FetchedThenDeleted() returns (steps: seq<Step>)
    ensures CanRun(CAP_OF_ONE, TWO_CALLERS, steps)
    ensures var t := Run(CAP_OF_ONE, TWO_CALLERS, steps);
      && |t.callers| == 2 && |t.objs| == 1 && t.objs[0].total == 0 && t.sessions == map[]
      && t.callers[1] == Caller(Fresh, 0, "id", "h", "/a", false) && t.callers[0].place.Out?
  {
    var l, s, want := CAP_OF_ONE, TWO_CALLERS, Caller(Out, 0, "id", "h", "/a", false);
    AcquireAlone(l, s, want, 0, 0);
    steps := AcquireSteps(l, s, want, 0, 0);
    var a := Run(l, s, steps);
    assert a.objs == [Admit(EMPTY, "h", "/a", false)] && a.sessions == map["id" := 0];
    AppendOne(l, s, steps, Get(1, "id", "h", "/a"));
    steps := steps + [Get(1, "id", "h", "/a")];
    var b := Run(l, s, steps);
    assert b.objs == a.objs && b.callers[1] == want.(place := Fresh);
    hide Do, Enabled;
    ReleaseAlone(l, b, 0);
    RunAppend(l, s, steps, ReleaseSteps(b, 0));
    steps := steps + ReleaseSteps(b, 0);
  }

  /** The second caller goes on with the object whose session is gone. */
  lemma LateComer(l: Limits, s: Sys, steps: seq<Step>) returns (longer: seq<Step>)
    requires l == CAP_OF_ONE && CanRun(l, s, steps)
    requires var a := Run(l, s, steps);
      && |a.callers| == 2 && |a.objs| == 1 && a.objs[0].total == 0 && a.sessions == map[]
      && a.callers[1] == Caller(Fresh, 0, "id", "h", "/a", false) && a.callers[0].place.Out?
    ensures CanRun(l, s, longer)
    ensures var t := Run(l, s, longer);
      && |t.callers| == 2 && |t.objs| == 1 && t.objs[0].total == 1 && t.sessions == map[]
      && t.callers[1] == Caller(Live, 0, "id", "h", "/a", false) && t.callers[0].place.Out?
  {
    AppendOne(l, s, steps, CheckTotal(1));
    longer := steps + [CheckTotal(1)];
    hide Do, Enabled;
    RunChecks(l, Run(l, s, longer), 1, false, 0);
    RunAppend(l, s, longer, StepsFor(Admitted, 1, false));
    longer := longer + StepsFor(Admitted, 1, false);
  }

  /** A release up to the point where it is about to delete the session. */
  lemma UpToDelete(l: Limits, s: Sys, i: nat) returns (steps: seq<Step>)
    requires i < |s.callers| && s.callers[i].place.Live? && s.callers[i].obj < |s.objs| && !s.callers[i].big
    requires s.objs[s.callers[i].obj].total <= 1
    ensures CanRun(l, s, steps)
    ensures var t, c := Run(l, s, steps), s.callers[i];
      && t.sessions == s.sessions && t.callers == s.callers[i := c.(place := Leaving)]
      && t.objs == s.objs[c.obj := Leave(s.objs[c.obj], c.infoHash, c.path, false)]
  {
    hide AddConc, Conc;
    RunTwo(l, s, DropConc(i), DropHash(i));
    AppendOne(l, s, [DropConc(i)] + [DropHash(i)], DropTotal(i));
    steps := [DropConc(i)] + [DropHash(i)] + [DropTotal(i)];
  }

  /** One caller is about to delete the session, whose object nobody uses; the other has not called yet. */
  ghost predicate AboutToDelete(t: Sys)
  {
    && |t.callers| == 2 && t.callers[0] == Caller(Leaving, 0, "id", "h", "/a", false) && t.callers[1].place.Out?
    && t.objs != [] && t.objs[0].total == 0
  }

  lemma DeleteDelayed() returns (steps: seq<Step>)
    ensures CanRun(CAP_OF_ONE, TWO_CALLERS, steps)
    ensures var t := Run(CAP_OF_ONE, TWO_CALLERS, steps);
      AboutToDelete(t) && |t.objs| == 1 && t.sessions == map["id" := 0]
  {
    var l, s, want := CAP_OF_ONE, TWO_CALLERS, Caller(Out, 0, "id", "h", "/a", false);
    AcquireAlone(l, s, want, 0, 0);
    steps := AcquireSteps(l, s, want, 0, 0);
    var a := Run(l, s, steps);
    assert a.objs == [Admit(EMPTY, "h", "/a", false)] && a.sessions == map["id" := 0];
    assert a.callers == [want.(place := Live), s.callers[1]];
    hide Do, Enabled;
    var more := UpToDelete(l, a, 0);
    RunAppend(l, s, steps, more);
    steps := steps + more;
  }

  lemma Comes() returns (steps: seq<Step>)
    ensures CanRun(CAP_OF_ONE, TWO_CALLERS, steps)
    ensures var t := Run(CAP_OF_ONE, TWO_CALLERS, steps);
      && |t.callers| == 2 && t.callers[0] == Caller(Leaving, 0, "id", "h", "/a", false)
      && t.callers[1] == Caller(Live, 0, "id", "h", "/a", false)
      && |t.objs| == 1 && t.objs[0].total == 1 && t.sessions == map["id" := 0]
  {
    var l, s, want := CAP_OF_ONE, TWO_CALLERS, Caller(Out, 0, "id", "h", "/a", false);
    steps := DeleteDelayed();
    var a := Run(l, s, steps);
    hide Do, Enabled;
    AcquireAlone(l, a, want, 1, 0);
    hide AddConc;
    var more := AcquireSteps(l, a, want, 1, 0);
    RunAppend(l, s, steps, more);
    steps := steps + more;
  }

  /** The second caller has come and gone, and its release has deleted the session. */
  lemma ComesAndGoes() returns (steps: seq<Step>)
    ensures CanRun(CAP_OF_ONE, TWO_CALLERS, steps)
    ensures var t := Run(CAP_OF_ONE, TWO_CALLERS, steps); AboutToDelete(t) && |t.objs| == 1 && t.sessions == map[]
  {
    hide Do, Enabled, AddConc;
    steps := Comes();
    var b := Run(CAP_OF_ONE, TWO_CALLERS, steps);
    ReleaseAlone(CAP_OF_ONE, b, 1);
    RunAppend(CAP_OF_ONE, TWO_CALLERS, steps, ReleaseSteps(b, 1));
    steps := steps + ReleaseSteps(b, 1);
  }

  /** A release that deletes late deletes whatever object its session has by then: a request is live on an object that
      is no longer in the table, and the session's next request will not find its counters. */
  lemma LiveSessionMissing() returns (steps: seq<Step>)
    ensures CanRun(CAP_OF_ONE, TWO_CALLERS, steps)
    ensures var t := Run(CAP_OF_ONE, TWO_CALLERS, steps);
      && |t.callers| == 2 && t.callers[1].place.Live? && t.callers[1].obj < |t.objs|
      && t.objs[t.callers[1].obj].total == 1 && t.callers[1].id !in t.sessions
  {
    var l, s, want := CAP_OF_ONE, TWO_CALLERS, Caller(Out, 0, "id", "h", "/a", false);
    steps := ComesAndGoes();
    var a := Run(l, s, steps);
    AcquireAlone(l, a, want, 1, 0);
    var more := AcquireSteps(l, a, want, 1, 0);
    RunAppend(l, s, steps, more);
    steps := steps + more;
    var b := Run(l, s, steps);
    assert b.callers[1] == want.(place := Live, obj := 1) && b.objs[1].total == 1 && b.objs[0].total == 0;
    assert b.callers[0] == a.callers[0];
    AppendOne(l, s, steps, Delete(0));
    steps := steps + [Delete(0)];
  }
}
