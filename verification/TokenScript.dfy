// The Lua token bucket that every proxy of a session runs inside Redis.
module TokenScript {
  import opened Basics

  /** The Redis hash behind one session key. Ticks are milliseconds. */
  datatype Hash = Hash(tokens: real, lastTick: int)

  /** The arguments a bucket sends: whole numbers, because Go truncates them. */
  datatype Limit = Limit(cap: nat, rate: nat)

  datatype Call = Call(req: nat, now: int)

  /** Seconds a key lives after its last call. */
  const TTL_MS := 300_000

  function Balance(l: Limit, key: Option<Hash>): real
  {
    if key.Some? then key.value.tokens else l.cap as real
  }

  /** The positive part of the time since the previous call. */
  function Advance(key: Option<Hash>, now: int): nat
  {
    if key.Some? && now > key.value.lastTick then now - key.value.lastTick else 0
  }

  /** What the limit earns in ms milliseconds. */
  function Earned(l: Limit, ms: int): (e: real)
    ensures ms >= 0 ==> e >= 0.0
    ensures ms < 0 && l.rate > 0 ==> e < 0.0
  {
    ms as real / 1000.0 * l.rate as real
  }

  lemma EarnedAdd(l: Limit, a: int, b: int)
    ensures Earned(l, a + b) == Earned(l, a) + Earned(l, b)
  {
  }

  function Accrued(l: Limit, key: Option<Hash>, now: int): real
  {
    var ms := Advance(key, now);
    var tokens := Balance(l, key);
    if ms == 0 then tokens
    else
      var grown := tokens + Earned(l, ms);
      if grown > l.cap as real then l.cap as real else grown
  }

  function Granted(l: Limit, key: Option<Hash>, c: Call): real
  {
    var tokens := Accrued(l, key, c.now);
    if tokens >= c.req as real then c.req as real
    else if tokens > 0.0 then tokens
    else 0.0
  }

  function Stored(l: Limit, key: Option<Hash>, c: Call): Hash
  {
    Hash(Accrued(l, key, c.now) - Granted(l, key, c), c.now)
  }

  ghost predicate ValidKey(l: Limit, key: Option<Hash>)
  {
    0.0 <= Balance(l, key) <= l.cap as real
  }

  /** One call spends at most the balance plus what the clock's advance earned, keeps the balance in
      range, and leaves nothing behind when it grants less than was asked. */
  lemma CallAccounts(l: Limit, key: Option<Hash>, c: Call)
    requires ValidKey(l, key)
    ensures ValidKey(l, Some(Stored(l, key, c)))
    ensures 0.0 <= Granted(l, key, c) <= c.req as real
    ensures Granted(l, key, c) + Stored(l, key, c).tokens
         <= Balance(l, key) + Earned(l, Advance(key, c.now))
    ensures Granted(l, key, c) < c.req as real ==> Stored(l, key, c).tokens == 0.0
  {
  }

  /** The stored hash and the total granted after a list of calls, by any callers in any order. */
  function After(l: Limit, key: Option<Hash>, calls: seq<Call>): Option<Hash>
  {
    if calls == [] then key
    else
      var n := |calls| - 1;
      Some(Stored(l, After(l, key, calls[..n]), calls[n]))
  }

  function Total(l: Limit, key: Option<Hash>, calls: seq<Call>): real
  {
    if calls == [] then 0.0
    else
      var n := |calls| - 1;
      Total(l, key, calls[..n]) + Granted(l, After(l, key, calls[..n]), calls[n])
  }

  /** How far the callers' clocks moved forward, step by step. */
  function Forward(l: Limit, key: Option<Hash>, calls: seq<Call>): nat
  {
    if calls == [] then 0
    else
      var n := |calls| - 1;
      Forward(l, key, calls[..n]) + Advance(After(l, key, calls[..n]), calls[n].now)
  }

  /** Whatever the clocks do, the calls together are granted at most what was stored plus what the
      forward steps of the clock earned. */
  lemma {:induction false} TotalBounded(l: Limit, key: Option<Hash>, calls: seq<Call>)
    requires ValidKey(l, key)
    ensures ValidKey(l, After(l, key, calls))
    ensures Total(l, key, calls) + Balance(l, After(l, key, calls))
         <= Balance(l, key) + Earned(l, Forward(l, key, calls))
  {
    if calls != [] {
      var n := |calls| - 1;
      TotalBounded(l, key, calls[..n]);
      CallAccounts(l, After(l, key, calls[..n]), calls[n]);
      EarnedAdd(l, Forward(l, key, calls[..n]), Advance(After(l, key, calls[..n]), calls[n].now));
    }
  }

  lemma {:induction false} AfterAppend(l: Limit, key: Option<Hash>, a: seq<Call>, b: seq<Call>)
    ensures After(l, key, a + b) == After(l, After(l, key, a), b)
    ensures Total(l, key, a + b) == Total(l, key, a) + Total(l, After(l, key, a), b)
  {
    if b == [] {
      assert a + b == a;
    } else {
      var n := |b| - 1;
      assert (a + b)[..|a| + n] == a + b[..n];
      AfterAppend(l, key, a, b[..n]);
    }
  }

  // ---------------------------------------------------------------- windows and clocks

  ghost predicate At(calls: seq<Call>, times: seq<int>)
  {
    |calls| == |times| && forall k | 0 <= k < |times| :: calls[k].now == times[k]
  }

  ghost predicate InOrder(calls: seq<Call>)
  {
    forall i, j | 0 <= i <= j < |calls| :: calls[i].now <= calls[j].now
  }

  /** The first call may as well find the key already brought up to date. */
  lemma {:induction false} FirstCallRefreshes(l: Limit, key: Option<Hash>, calls: seq<Call>)
    requires calls != []
    ensures var settled := Some(Hash(Accrued(l, key, calls[0].now), calls[0].now));
      Total(l, key, calls) == Total(l, settled, calls) && After(l, key, calls) == After(l, settled, calls)
  {
    var n := |calls| - 1;
    if n == 0 {
      assert calls[..0] == [];
    } else {
      assert calls[..n][0] == calls[0];
      FirstCallRefreshes(l, key, calls[..n]);
    }
  }

  lemma {:induction false} ForwardIsElapsed(l: Limit, h: Hash, calls: seq<Call>)
    requires calls != [] && calls[0].now == h.lastTick
    requires InOrder(calls)
    ensures Forward(l, Some(h), calls) == calls[|calls| - 1].now - h.lastTick
  {
    var n := |calls| - 1;
    if n == 0 {
      assert calls[..0] == [];
    } else {
      assert calls[..n][0] == calls[0];
      ForwardIsElapsed(l, h, calls[..n]);
      assert After(l, Some(h), calls[..n]).value.lastTick == calls[..n][n - 1].now;
      assert calls[n - 1].now <= calls[n].now;
    }
  }

  lemma {:induction false} KeyStaysValid(l: Limit, key: Option<Hash>, calls: seq<Call>)
    requires ValidKey(l, key)
    ensures ValidKey(l, After(l, key, calls))
  {
    TotalBounded(l, key, calls);
  }

  lemma OrderedRunWithinRate(l: Limit, key: Option<Hash>, calls: seq<Call>)
    requires ValidKey(l, key) && calls != [] && InOrder(calls)
    ensures Total(l, key, calls) <= l.cap as real + Earned(l, calls[|calls| - 1].now - calls[0].now)
  {
    var settled := Hash(Accrued(l, key, calls[0].now), calls[0].now);
    assert ValidKey(l, Some(settled));
    hide Granted, Stored, Earned, Accrued;
    FirstCallRefreshes(l, key, calls);
    ForwardIsElapsed(l, settled, calls);
    TotalBounded(l, Some(settled), calls);
  }

  lemma WindowWithinRate(l: Limit, key: Option<Hash>, calls: seq<Call>, i: nat, j: nat)
    requires ValidKey(l, key) && i < j <= |calls| && InOrder(calls)
    ensures Total(l, key, calls[..j]) - Total(l, key, calls[..i])
         <= l.cap as real + Earned(l, calls[j - 1].now - calls[i].now)
  {
    hide Total, After, Earned;
    var window := calls[i..j];
    assert calls[..j] == calls[..i] + window;
    AfterAppend(l, key, calls[..i], window);
    KeyStaysValid(l, key, calls[..i]);
    OrderedRunWithinRate(l, After(l, key, calls[..i]), window);
  }

  // ---------------------------------------------------------------- clocks that step back

  /** What an advance of ms milliseconds can add to the bucket: no more than the whole of it. */
  function Refill(l: Limit, ms: nat): (e: real)
    ensures 0.0 <= e <= l.cap as real && e <= Earned(l, ms)
  {
    if Earned(l, ms) > l.cap as real then l.cap as real else Earned(l, ms)
  }

  /** What all the advances between consecutive calls can add. */
  function Refills(l: Limit, times: seq<int>): (e: real)
    ensures e >= 0.0
  {
    var n := |times| - 1;
    if n <= 0 then 0.0
    else Refills(l, times[..n]) + Refill(l, if times[n] > times[n - 1] then times[n] - times[n - 1] else 0)
  }

  /** A bucket never asks for less than the whole-number rate. */
  ghost predicate Sendable(l: Limit, calls: seq<Call>)
  {
    forall c | c in calls :: c.req >= l.rate
  }

  function Times(calls: seq<Call>): seq<int>
  {
    seq(|calls|, k requires 0 <= k < |calls| => calls[k].now)
  }

  lemma {:induction false} TotalWithinRefills(l: Limit, key: Option<Hash>, calls: seq<Call>)
    requires ValidKey(l, key) && calls != []
    ensures Total(l, key, calls) + Balance(l, After(l, key, calls)) <= l.cap as real + Refills(l, Times(calls))
  {
    var n := |calls| - 1;
    var last := After(l, key, calls[..n]);
    KeyStaysValid(l, key, calls[..n]);
    CallRefills(l, last, calls[n]);
    hide Granted, Accrued, Earned, Refill;
    if n > 0 {
      TotalWithinRefills(l, key, calls[..n]);
      assert Times(calls) == Times(calls[..n]) + [calls[n].now];
      LastTick(l, key, calls[..n]);
      RefillsAppend(l, Times(calls[..n]), calls[n].now);
      hide Refills, Times, Stored;
    }
  }

  lemma CallRefills(l: Limit, key: Option<Hash>, c: Call)
    requires ValidKey(l, key)
    ensures Granted(l, key, c) + Stored(l, key, c).tokens <= l.cap as real
    ensures Granted(l, key, c) + Stored(l, key, c).tokens <= Balance(l, key) + Refill(l, Advance(key, c.now))
  {
  }

  lemma RefillsAppend(l: Limit, times: seq<int>, t: int)
    requires times != []
    ensures var last := times[|times| - 1];
      Refills(l, times + [t]) == Refills(l, times) + Refill(l, if t > last then t - last else 0)
  {
  }

  lemma LastTick(l: Limit, key: Option<Hash>, calls: seq<Call>)
    requires calls != []
    ensures After(l, key, calls).Some? && After(l, key, calls).value.lastTick == calls[|calls| - 1].now
  {
  }

  /** In every window of any run, whatever the clocks do, the grants are one burst and the refills between the window's
      own calls; time before the window does not count. */
  lemma WindowWithinRefills(l: Limit, key: Option<Hash>, calls: seq<Call>, i: nat, j: nat)
    requires ValidKey(l, key) && i < j <= |calls|
    ensures Total(l, key, calls[..j]) - Total(l, key, calls[..i]) <= l.cap as real + Refills(l, Times(calls[i..j]))
  {
    hide Total, After, Refills;
    assert calls[..j] == calls[..i] + calls[i..j];
    AfterAppend(l, key, calls[..i], calls[i..j]);
    KeyStaysValid(l, key, calls[..i]);
    TotalWithinRefills(l, After(l, key, calls[..i]), calls[i..j]);
    KeyStaysValid(l, After(l, key, calls[..i]), calls[i..j]);
  }

  /** Calls at the given times that each ask for all there can be. */
  function Greedy(l: Limit, times: seq<int>): (calls: seq<Call>)
    ensures At(calls, times) && forall c | c in calls :: c.req == Max(l.cap, l.rate)
  {
    if times == [] then []
    else
      var n := |times| - 1;
      Greedy(l, times[..n]) + [Call(Max(l.cap, l.rate), times[n])]
  }

  lemma DrainsRefill(l: Limit, key: Option<Hash>, c: Call)
    requires c.req >= l.cap && Balance(l, key) == 0.0
    ensures Granted(l, key, c) == Refill(l, Advance(key, c.now)) && Stored(l, key, c).tokens == 0.0
  {
  }

  lemma {:induction false} GreedyGrants(l: Limit, times: seq<int>)
    requires times != []
    ensures Total(l, None, Greedy(l, times)) == l.cap as real + Refills(l, times)
    ensures Balance(l, After(l, None, Greedy(l, times))) == 0.0
  {
    var n, calls := |times| - 1, Greedy(l, times);
    assert calls[..n] == Greedy(l, times[..n]) && times[..n] + [times[n]] == times;
    if n > 0 {
      GreedyGrants(l, times[..n]);
      LastTick(l, None, calls[..n]);
      RefillsAppend(l, times[..n], times[n]);
      DrainsRefill(l, After(l, None, calls[..n]), calls[n]);
      hide Refills, Granted, Stored, Refill, Greedy;
    }
  }

  /** Calls with the given stamps, each for at least the rate, are granted at most one burst and ms milliseconds of
      rate, for all requests and all earlier calls, exactly when the refills between them are worth no more: however the
      time they took is measured, a clock that steps back and forth earns the same time again. */
  lemma RateHoldsIff(l: Limit, times: seq<int>, ms: nat)
    ensures (forall key: Option<Hash>, calls: seq<Call> | ValidKey(l, key) && At(calls, times) && Sendable(l, calls) ::
               Total(l, key, calls) <= l.cap as real + Earned(l, ms))
       <==> Refills(l, times) <= Earned(l, ms)
  {
    if times != [] {
      GreedyGrants(l, times);
    }
    forall key: Option<Hash>, calls: seq<Call> | ValidKey(l, key) && At(calls, times) && Sendable(l, calls)
      ensures Total(l, key, calls) <= l.cap as real + Refills(l, times)
    {
      if calls != [] {
        assert Times(calls) == times;
        TotalWithinRefills(l, key, calls);
        KeyStaysValid(l, key, calls);
      }
    }
    hide Refills, Granted, Stored;
    assert ValidKey(l, None) && At(Greedy(l, times), times) && Sendable(l, Greedy(l, times));
  }

  /** Two callers whose clocks are d milliseconds apart, calling in turn. */
  function BackAndForth(d: nat, k: nat): (times: seq<int>)
    ensures times != [] && times[|times| - 1] == d && forall t | t in times :: 0 <= t <= d
  {
    if k == 0 then [d] else BackAndForth(d, k - 1) + [0, d]
  }

  lemma OneTurn(l: Limit, times: seq<int>, d: nat)
    requires times != [] && times[|times| - 1] == d
    ensures Refills(l, times + [0, d]) == Refills(l, times) + Refill(l, d)
  {
    assert times + [0, d] == times + [0] + [d];
    RefillsAppend(l, times, 0);
    RefillsAppend(l, times + [0], d);
    assert Refill(l, 0) == 0.0;
    hide Refills, Refill;
  }

  lemma OnceMore(k: nat, x: real)
    requires k > 0
    ensures k as real * x == (k - 1) as real * x + x
  {
  }

  lemma {:induction false} TurnsRefill(l: Limit, d: nat, k: nat)
    ensures Refills(l, BackAndForth(d, k)) == k as real * Refill(l, d)
  {
    hide Refill;
    if k > 0 {
      TurnsRefill(l, d, k - 1);
      OneTurn(l, BackAndForth(d, k - 1), d);
      OnceMore(k, Refill(l, d));
      hide Refills;
    }
  }

  /** Calling in turn they are granted the refill of d milliseconds again with every turn, although no two of their
      stamps are further apart than d: from the second turn on that is more than the rate allows. */
  lemma TimeEarnedAgain(l: Limit, d: nat, k: nat)
    requires l.rate > 0 && d > 0
    ensures Sendable(l, Greedy(l, BackAndForth(d, k))) && forall t | t in BackAndForth(d, k) :: 0 <= t <= d
    ensures Total(l, None, Greedy(l, BackAndForth(d, k))) == l.cap as real + k as real * Refill(l, d)
    ensures k >= 2 && Earned(l, d) <= l.cap as real ==>
      Total(l, None, Greedy(l, BackAndForth(d, k))) > l.cap as real + Earned(l, d)
  {
    hide Refills, Refill, Earned, Total, Greedy, BackAndForth;
    TurnsRefill(l, d, k);
    GreedyGrants(l, BackAndForth(d, k));
    if k >= 2 && Earned(l, d) <= l.cap as real { MoreThanOnce(l, d, k); }
  }

  lemma MoreThanOnce(l: Limit, d: nat, k: nat)
    requires l.rate > 0 && d > 0 && k >= 2 && Earned(l, d) <= l.cap as real
    ensures k as real * Refill(l, d) > Earned(l, d)
  {
    var x, more := Earned(l, d), (k - 2) as real;
    assert x > 0.0 && Refill(l, d) == x;
    hide Earned, Refill;
    assert more * x >= 0.0;
    assert k as real * x == (more + 2.0) * x == more * x + 2.0 * x;
  }

  // ---------------------------------------------------------------- expiry

  ghost predicate SameAsDeleted(l: Limit, h: Hash, c: Call)
  {
    Granted(l, Some(h), c) == Granted(l, None, c) && Stored(l, Some(h), c) == Stored(l, None, c)
  }

  lemma EarnedInTtl(l: Limit, ms: int)
    requires ms >= TTL_MS
    ensures Earned(l, TTL_MS) == 300.0 * l.rate as real
    ensures Earned(l, ms) >= Earned(l, TTL_MS)
  {
  }

  /** Dropping a key nobody called for TTL_MS changes no answer exactly when the whole burst is earned
      back in that time. */
  lemma ExpiryUnobservableIff(l: Limit)
    ensures (forall h: Hash, c: Call | ValidKey(l, Some(h)) && c.now - h.lastTick >= TTL_MS ::
               SameAsDeleted(l, h, c))
       <==> l.cap <= 300 * l.rate
  {
    if l.cap <= 300 * l.rate {
      forall h: Hash, c: Call | ValidKey(l, Some(h)) && c.now - h.lastTick >= TTL_MS
        ensures SameAsDeleted(l, h, c)
      {
        EarnedInTtl(l, c.now - h.lastTick);
      }
    } else {
      var h, c := Hash(0.0, 0), Call(l.cap, TTL_MS);
      EarnedInTtl(l, TTL_MS);
      assert ValidKey(l, Some(h)) && !SameAsDeleted(l, h, c);
    }
  }
}
