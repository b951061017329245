/**
 Concurrent calls of the budget guard.  A call takes the guard's lock three times: to reset the day, to read
 the daily figure and, when it allows the turn, to add the estimate.  A step is one of these, and a run is any
 interleaving of the calls of any number of callers.
 */
module BudgetRace {
  import opened BudgetGuard

  /** Where a caller stands: outside, past the reset, or about to add an estimate it allowed. */
  datatype Caller = Outside | Entered(estimate: real) | Allowed(estimate: real)

  datatype Shared = Shared(dailySpend: real, callers: seq<Caller>)

  /** `dayPassed` is what the clock says on entry, `sessionSpend` what the billing manager says. */
  datatype Step =
    | Enter(caller: nat, estimate: real, dayPassed: bool)
    | Look(caller: nat, sessionSpend: real)
    | Add(caller: nat)

  /** Estimates are not negative. */
  predicate Enabled(s: Shared, st: Step) {
    && st.caller < |s.callers|
    && match st
       case Enter(i, estimate, _) => s.callers[i].Outside? && 0.0 <= estimate
       case Look(i, _) => s.callers[i].Entered?
       case Add(i) => s.callers[i].Allowed?
  }

  /** The decision on the daily figure that was read. */
  function Verdict(l: Limits, dailySpend: real, estimate: real, sessionSpend: real): Action {
    var daily := Judge(l.daily, l.warnAt, dailySpend, estimate);
    if daily.Allow? then Judge(l.session, l.warnAt, sessionSpend, estimate) else daily
  }

  function Perform(l: Limits, s: Shared, st: Step): Shared
    requires Enabled(s, st)
  {
    match st
    case Enter(i, estimate, dayPassed) =>
      Shared(if dayPassed then 0.0 else s.dailySpend, s.callers[i := Entered(estimate)])
    case Look(i, sessionSpend) =>
      var e := s.callers[i].estimate;
      var allowed := Verdict(l, s.dailySpend, e, sessionSpend).Allow?;
      s.(callers := s.callers[i := if allowed then Allowed(e) else Outside])
    case Add(i) =>
      Shared(s.dailySpend + s.callers[i].estimate, s.callers[i := Outside])
  }

  ghost predicate IsRun(l: Limits, s: Shared, run: seq<Step>)
    decreases |run|
  {
    run != [] ==> Enabled(s, run[0]) && IsRun(l, Perform(l, s, run[0]), run[1..])
  }

  ghost function After(l: Limits, s: Shared, run: seq<Step>): Shared
    requires IsRun(l, s, run)
    decreases |run|
  {
    if run == [] then s else After(l, Perform(l, s, run[0]), run[1..])
  }

  /** A new guard with `n` callers. */
  function Start(n: nat): Shared { Shared(0.0, seq(n, _ => Outside)) }

  /** What a limit lets spending and estimate come to without blocking or warning. */
  function Ceiling(limit: real, warnAt: real): real { if warnAt < 1.0 then limit * warnAt else limit }

  function Threshold(l: Limits): real { Ceiling(l.daily, l.warnAt) }

  lemma AllowedIff(limit: real, warnAt: real, spent: real, estimate: real)
    requires 0.0 < limit
    ensures Judge(limit, warnAt, spent, estimate).Allow? <==> spent + estimate <= Ceiling(limit, warnAt)
  {
    if warnAt < 1.0 {
      StrictlyBelow(limit, warnAt);
    } else {
      MulLess(1.0, warnAt, limit);
    }
  }

  /** A call that no other call disturbs decides and adds like one that holds the lock throughout. */
  lemma UndisturbedCallIsAtomic(l: Limits, s: Shared, t: Track, i: nat, now: real, estimate: real, spent: real)
    requires i < |s.callers| && s.callers[i].Outside? && 0.0 <= estimate && t.dailySpend == s.dailySpend
    ensures var (t', action) := Decide(l, t, now, estimate, spent);
            var s1 := Perform(l, s, Enter(i, estimate, now - t.lastReset >= DAY));
            var s2 := Perform(l, s1, Look(i, spent));
            var after := s.(dailySpend := t'.dailySpend);
            if action.Allow? then Enabled(s2, Add(i)) && Perform(l, s2, Add(i)) == after else s2 == after
  {
    assert s.callers[i := Entered(estimate)][i := Outside] == s.callers;
    assert s.callers[i := Entered(estimate)][i := Allowed(estimate)][i := Outside] == s.callers;
  }

  // ---------------------------------------------------------------------------------------------
  // How far the daily figure can go
  // ---------------------------------------------------------------------------------------------

  function Part(c: Caller): real { if c.Allowed? then c.estimate else 0.0 }

  /** What is allowed and not yet added. */
  function Pending(callers: seq<Caller>): real {
    if callers == [] then 0.0 else Part(callers[0]) + Pending(callers[1..])
  }

  lemma {:induction false} PendingAfterUpdate(callers: seq<Caller>, i: nat, c: Caller)
    requires i < |callers|
    ensures Pending(callers[i := c]) == Pending(callers) - Part(callers[i]) + Part(c)
  {
    if i == 0 {
      assert callers[0 := c][1..] == callers[1..];
    } else {
      assert callers[i := c][1..] == callers[1..][i - 1 := c];
      PendingAfterUpdate(callers[1..], i - 1, c);
    }
  }

  ghost predicate AtMostEach(callers: seq<Caller>, most: real) {
    forall i :: 0 <= i < |callers| ==> 0.0 <= Part(callers[i]) <= most
  }

  lemma {:induction false} PendingIsBounded(callers: seq<Caller>, most: real)
    requires AtMostEach(callers, most)
    ensures Pending(callers) <= Times(|callers|, most)
  {
    if callers != [] {
      assert forall i :: 0 <= i < |callers| - 1 ==> callers[1..][i] == callers[i + 1];
      PendingIsBounded(callers[1..], most);
    }
  }

  lemma {:induction false} PendingWithout(callers: seq<Caller>, i: nat)
    requires i < |callers|
    ensures Pending(callers) == Pending(callers[..i] + callers[i + 1..]) + Part(callers[i])
  {
    var others := callers[..i] + callers[i + 1..];
    if i == 0 {
      assert others == callers[1..];
    } else {
      assert others[1..] == callers[1..][..i - 1] + callers[1..][i..];
      PendingWithout(callers[1..], i - 1);
    }
  }

  lemma {:induction false} OthersAreBounded(callers: seq<Caller>, i: nat, most: real)
    requires i < |callers| && AtMostEach(callers, most) && Part(callers[i]) == 0.0
    ensures Pending(callers) <= Times(|callers| - 1, most)
  {
    var others := callers[..i] + callers[i + 1..];
    assert AtMostEach(others, most);
    PendingIsBounded(others, most);
    PendingWithout(callers, i);
  }

  /** The figure, with what is about to be added, is at most one threshold for each caller. */
  ghost predicate Inv(l: Limits, s: Shared) {
    && 0.0 <= s.dailySpend
    && AtMostEach(s.callers, Threshold(l))
    && (forall i :: 0 <= i < |s.callers| && s.callers[i].Entered? ==> 0.0 <= s.callers[i].estimate)
    && s.dailySpend + Pending(s.callers) <= Times(|s.callers|, Threshold(l))
  }

  /** A caller that has read the figure may add at most what is left to the threshold. */
  lemma LookKeepsInv(l: Limits, s: Shared, i: nat)
    requires 0.0 < l.daily && Inv(l, s) && i < |s.callers| && s.callers[i].Entered?
    requires s.dailySpend + s.callers[i].estimate <= Threshold(l)
    ensures Inv(l, s.(callers := s.callers[i := Allowed(s.callers[i].estimate)]))
  {
    PendingAfterUpdate(s.callers, i, Allowed(s.callers[i].estimate));
    OthersAreBounded(s.callers, i, Threshold(l));
  }

  lemma StepKeepsInv(l: Limits, s: Shared, st: Step)
    requires 0.0 < l.daily && 0.0 <= Threshold(l) && Inv(l, s) && Enabled(s, st)
    ensures Inv(l, Perform(l, s, st))
  {
    var i := st.caller;
    match st {
      case Enter(_, estimate, _) =>
        PendingAfterUpdate(s.callers, i, Entered(estimate));
      case Look(_, _) =>
        if Perform(l, s, st).callers[i].Allowed? {
          AllowedIff(l.daily, l.warnAt, s.dailySpend, s.callers[i].estimate);
          LookKeepsInv(l, s, i);
        } else {
          PendingAfterUpdate(s.callers, i, Outside);
        }
      case Add(_) =>
        PendingAfterUpdate(s.callers, i, Outside);
    }
  }

  lemma {:induction false} RunKeepsInv(l: Limits, s: Shared, run: seq<Step>)
    requires 0.0 < l.daily && 0.0 <= Threshold(l) && Inv(l, s) && IsRun(l, s, run)
    ensures Inv(l, After(l, s, run)) && |After(l, s, run).callers| == |s.callers|
    decreases |run|
  {
    if run != [] {
      StepKeepsInv(l, s, run[0]);
      RunKeepsInv(l, Perform(l, s, run[0]), run[1..]);
    }
  }

  lemma {:induction false} PendingIsNotNegative(callers: seq<Caller>, most: real)
    requires AtMostEach(callers, most)
    ensures 0.0 <= Pending(callers)
  {
    if callers != [] {
      assert forall i :: 0 <= i < |callers| - 1 ==> callers[1..][i] == callers[i + 1];
      PendingIsNotNegative(callers[1..], most);
    }
  }

  lemma {:induction false} NothingPending(callers: seq<Caller>)
    requires forall i :: 0 <= i < |callers| ==> callers[i].Outside?
    ensures Pending(callers) == 0.0
  {
    if callers != [] {
      NothingPending(callers[1..]);
    }
  }

  lemma {:induction false} TimesIsNotNegative(n: nat, amount: real)
    requires 0.0 <= amount
    ensures 0.0 <= Times(n, amount)
  {
    if n > 0 {
      TimesIsNotNegative(n - 1, amount);
    }
  }

  lemma StartHasInv(l: Limits, n: nat)
    requires 0.0 <= Threshold(l)
    ensures Inv(l, Start(n))
  {
    NothingPending(Start(n).callers);
    TimesIsNotNegative(n, Threshold(l));
  }

  lemma MulPositive(a: real, b: real)
    requires 0.0 < a && 0.0 < b
    ensures 0.0 < a * b
  {
  }

  lemma CeilingIsNotNegative(limit: real, warnAt: real)
    requires 0.0 < limit && 0.0 <= warnAt
    ensures 0.0 <= Ceiling(limit, warnAt)
    ensures Ceiling(limit, warnAt) == 0.0 <==> warnAt == 0.0
  {
    if 0.0 < warnAt {
      MulPositive(limit, warnAt);
    }
  }

  /** With `n` callers the daily figure never passes `n` times the threshold. */
  lemma OvershootIsBounded(l: Limits, n: nat, run: seq<Step>)
    requires 0.0 < l.daily && 0.0 <= l.warnAt && IsRun(l, Start(n), run)
    ensures After(l, Start(n), run).dailySpend <= Times(n, Threshold(l))
  {
    CeilingIsNotNegative(l.daily, l.warnAt);
    StartHasInv(l, n);
    RunKeepsInv(l, Start(n), run);
    PendingIsNotNegative(After(l, Start(n), run).callers, Threshold(l));
  }

  // ---------------------------------------------------------------------------------------------
  // Runs that go that far
  // ---------------------------------------------------------------------------------------------

  lemma {:induction false} Extend(l: Limits, s: Shared, run: seq<Step>, st: Step)
    requires IsRun(l, s, run) && Enabled(After(l, s, run), st)
    ensures IsRun(l, s, run + [st]) && After(l, s, run + [st]) == Perform(l, After(l, s, run), st)
    decreases |run|
  {
    if run == [] {
      assert run + [st] == [st];
    } else {
      assert (run + [st])[1..] == run[1..] + [st];
      Extend(l, Perform(l, s, run[0]), run[1..], st);
    }
  }

  /** A caller enters and finds its estimate allowed. */
  lemma Ask(l: Limits, s: Shared, run: seq<Step>, i: nat, e: real) returns (longer: seq<Step>)
    requires IsRun(l, s, run) && 0.0 <= e
    requires var s' := After(l, s, run);
             i < |s'.callers| && s'.callers[i].Outside? && Verdict(l, s'.dailySpend, e, 0.0).Allow?
    ensures IsRun(l, s, longer)
    ensures var s' := After(l, s, run);
            After(l, s, longer) == s'.(callers := s'.callers[i := Allowed(e)])
  {
    Extend(l, s, run, Enter(i, e, false));
    longer := run + [Enter(i, e, false)];
    Extend(l, s, longer, Look(i, 0.0));
    longer := longer + [Look(i, 0.0)];
  }

  /** An estimate both limits allow as long as the daily figure leaves room for it. */
  function Portion(l: Limits): real {
    var session := Ceiling(l.session, l.warnAt);
    if 0.0 < l.session && session < Threshold(l) then session else Threshold(l)
  }

  lemma PortionIsAllowed(l: Limits, dailySpend: real)
    requires 0.0 < l.daily
    ensures Verdict(l, dailySpend, Portion(l), 0.0).Allow? <==> dailySpend + Portion(l) <= Threshold(l)
  {
    AllowedIff(l.daily, l.warnAt, dailySpend, Portion(l));
    if 0.0 < l.session {
      AllowedIff(l.session, l.warnAt, 0.0, Portion(l));
    }
  }

  lemma PortionIsPositive(l: Limits)
    requires 0.0 < l.daily && 0.0 < l.warnAt
    ensures 0.0 < Portion(l) <= Threshold(l)
  {
    CeilingIsNotNegative(l.daily, l.warnAt);
    if 0.0 < l.session {
      CeilingIsNotNegative(l.session, l.warnAt);
    }
  }

  /** One caller alone can take the figure to any number of portions within the threshold. */
  lemma {:induction false} FillUp(l: Limits, n: nat, k: nat) returns (run: seq<Step>)
    requires 0 < n && 0.0 < l.daily && 0.0 < l.warnAt && Times(k, Portion(l)) <= Threshold(l)
    ensures IsRun(l, Start(n), run)
    ensures After(l, Start(n), run) == Start(n).(dailySpend := Times(k, Portion(l)))
    decreases k
  {
    run := [];
    if k > 0 {
      PortionIsPositive(l);
      run := FillUp(l, n, k - 1);
      PortionIsAllowed(l, Times(k - 1, Portion(l)));
      run := Ask(l, Start(n), run, 0, Portion(l));
      Extend(l, Start(n), run, Add(0));
      run := run + [Add(0)];
      assert Start(n).callers[0 := Allowed(Portion(l))][0 := Outside] == Start(n).callers;
    }
  }

  lemma DividedBy(q: real, d: real, total: real)
    requires 0.0 < d && q == total / d
    ensures q * d == total
  {
  }

  lemma ProductOrder(a: real, b: real, d: real)
    requires 0.0 < d
    ensures a <= b <==> a * d <= b * d
  {
    if a <= b {
      MulLess(a, b, d);
    } else {
      QuotientBelow(b, a, d);
    }
  }

  lemma PortionsFit(n: nat, q: real, portion: real, total: real)
    requires 0.0 < portion && q == total / portion
    ensures n as real <= q <==> Times(n, portion) <= total
  {
    TimesIsProduct(n, portion);
    DividedBy(q, portion, total);
    ProductOrder(n as real, q, portion);
  }

  /** Whole portions up to the last that fits. */
  lemma WholePortions(portion: real, total: real) returns (k: nat)
    requires 0.0 < portion <= total
    ensures Times(k, portion) + portion <= total < Times(k, portion) + portion + portion
  {
    var q := total / portion;
    PortionsFit(1, q, portion, total);
    k := q.Floor - 1;
    PortionsFit(k + 1, q, portion, total);
    PortionsFit(k + 2, q, portion, total);
    assert Times(k + 2, portion) == Times(k + 1, portion) + portion;
  }

  /** Two callers that both look before either adds take the figure past the threshold. */
  lemma TwoCallersOvershoot(l: Limits, n: nat) returns (run: seq<Step>)
    requires 2 <= n && 0.0 < l.daily && 0.0 < l.warnAt
    ensures IsRun(l, Start(n), run) && After(l, Start(n), run).dailySpend > Threshold(l)
  {
    var e := Portion(l);
    PortionIsPositive(l);
    var k := WholePortions(e, Threshold(l));
    PortionIsAllowed(l, Times(k, e));
    run := FillUp(l, n, k);
    run := Ask(l, Start(n), run, 0, e);
    run := Ask(l, Start(n), run, 1, e);
    Extend(l, Start(n), run, Add(0));
    run := run + [Add(0)];
    Extend(l, Start(n), run, Add(1));
    run := run + [Add(1)];
  }

  /** The daily figure respects the threshold over every run with `n` callers. */
  ghost predicate FigureHolds(l: Limits, n: nat) {
    forall run :: IsRun(l, Start(n), run) ==> After(l, Start(n), run).dailySpend <= Threshold(l)
  }

  /** It does exactly when calls do not overlap: one caller at most, unless nothing is ever allowed to cost. */
  lemma FigureHoldsIff(l: Limits, n: nat)
    requires 0.0 < l.daily && 0.0 <= l.warnAt
    ensures FigureHolds(l, n) <==> n <= 1 || l.warnAt == 0.0
  {
    CeilingIsNotNegative(l.daily, l.warnAt);
    if n <= 1 || l.warnAt == 0.0 {
      forall run | IsRun(l, Start(n), run)
        ensures After(l, Start(n), run).dailySpend <= Threshold(l)
      {
        OvershootIsBounded(l, n, run);
        TimesIsProduct(n, Threshold(l));
      }
    } else {
      var run := TwoCallersOvershoot(l, n);
    }
  }

  /** The first `k` of `n` callers hold an estimate of the threshold, of which the first `j` have added theirs. */
  ghost predicate Crowd(l: Limits, s: Shared, n: nat, j: nat, k: nat) {
    && |s.callers| == n && j <= k <= n && s.dailySpend == Times(j, Threshold(l))
    && (forall i :: 0 <= i < j ==> s.callers[i] == Outside)
    && (forall i :: j <= i < k ==> s.callers[i] == Allowed(Threshold(l)))
    && (forall i :: k <= i < n ==> s.callers[i] == Outside)
  }

  lemma {:induction false} AllAsk(l: Limits, n: nat, k: nat) returns (run: seq<Step>)
    requires 0.0 < l.daily && 0.0 <= Threshold(l) && l.session <= 0.0 && k <= n
    ensures IsRun(l, Start(n), run) && Crowd(l, After(l, Start(n), run), n, 0, k)
    decreases k
  {
    run := [];
    if k > 0 {
      run := AllAsk(l, n, k - 1);
      AllowedIff(l.daily, l.warnAt, 0.0, Threshold(l));
      run := Ask(l, Start(n), run, k - 1, Threshold(l));
    }
  }

  lemma {:induction false} AllAdd(l: Limits, n: nat, j: nat, asked: seq<Step>) returns (run: seq<Step>)
    requires IsRun(l, Start(n), asked) && Crowd(l, After(l, Start(n), asked), n, 0, n) && j <= n
    ensures IsRun(l, Start(n), run) && Crowd(l, After(l, Start(n), run), n, j, n)
    decreases j
  {
    run := asked;
    if j > 0 {
      run := AllAdd(l, n, j - 1, asked);
      Extend(l, Start(n), run, Add(j - 1));
      run := run + [Add(j - 1)];
    }
  }

  /** Without a session limit the bound is exact: `n` callers can take the figure to `n` thresholds. */
  lemma OvershootIsReached(l: Limits, n: nat) returns (run: seq<Step>)
    requires 0.0 < l.daily && 0.0 <= l.warnAt && l.session <= 0.0
    ensures IsRun(l, Start(n), run) && After(l, Start(n), run).dailySpend == Times(n, Threshold(l))
  {
    CeilingIsNotNegative(l.daily, l.warnAt);
    run := AllAsk(l, n, n);
    run := AllAdd(l, n, n, run);
  }
}
