/**
 The budget guard: before each turn it compares the projected spending with a session limit and a daily
 limit.  Money is real; times are seconds.
 */
module BudgetGuard {
  import opened Normalize

  // ---------------------------------------------------------------------------------------------
  // Estimates
  // ---------------------------------------------------------------------------------------------

  datatype Price = Price(prefix: string, inputPerM: real, outputPerM: real)

  type Prices = map<string, seq<Price>>

  function CostAt(p: Price, inputToks: int, outputToks: int): real {
    inputToks as real / 1000000.0 * p.inputPerM + outputToks as real / 1000000.0 * p.outputPerM
  }

  /** The cost at the first price whose prefix occurs in the model name; 0 when none does. */
  ghost predicate IsEstimate(prices: Prices, lower: string -> string, provider: string, model: string,
                             inputToks: int, outputToks: int, r: real)
  {
    if lower(provider) !in prices then r == 0.0
    else
      var list := prices[lower(provider)];
      if exists i :: 0 <= i < |list| && Contains(lower(model), lower(list[i].prefix)) then
        exists i :: 0 <= i < |list| && Contains(lower(model), lower(list[i].prefix))
                    && (forall j :: 0 <= j < i ==> !Contains(lower(model), lower(list[j].prefix)))
                    && r == CostAt(list[i], inputToks, outputToks)
      else r == 0.0
  }

  method EstimateCost(prices: Prices, lower: string -> string, provider: string, model: string,
                      inputToks: int, outputToks: int)
    returns (r: real)
    ensures IsEstimate(prices, lower, provider, model, inputToks, outputToks, r)
  {
    if lower(provider) !in prices {
      return 0.0;
    }
    var list := prices[lower(provider)];
    for i := 0 to |list|
      invariant forall j :: 0 <= j < i ==> !Contains(lower(model), lower(list[j].prefix))
    {
      if Contains(lower(model), lower(list[i].prefix)) {
        return CostAt(list[i], inputToks, outputToks);
      }
    }
    return 0.0;
  }

  lemma ProductIsNotNegative(a: real, b: real)
    requires 0.0 <= a && 0.0 <= b
    ensures 0.0 <= a * b
  {
  }

  /** Prices are per million tokens, in and out. */
  lemma PricesArePerMillion(p: Price, inputToks: int, outputToks: int)
    ensures CostAt(p, inputToks, outputToks) * 1000000.0
            == inputToks as real * p.inputPerM + outputToks as real * p.outputPerM
  {
    PerMillion(inputToks as real, p.inputPerM);
    PerMillion(outputToks as real, p.outputPerM);
  }

  lemma PerMillion(n: real, price: real)
    ensures n / 1000000.0 * price * 1000000.0 == n * price
  {
  }

  /** Price `i` is the first of the list whose prefix the model name contains. */
  ghost predicate IsFirstMatch(list: seq<Price>, lower: string -> string, model: string, i: nat) {
    && i < |list| && Contains(lower(model), lower(list[i].prefix))
    && forall k :: 0 <= k < i ==> !Contains(lower(model), lower(list[k].prefix))
  }

  /** The estimate is the cost at the first price of the provider whose prefix the model name contains, and
      nothing when there is none or the provider is unknown. */
  lemma EstimateIsFirstMatch(prices: Prices, lower: string -> string, provider: string, model: string,
                             inputToks: int, outputToks: int, r: real)
    requires IsEstimate(prices, lower, provider, model, inputToks, outputToks, r)
    ensures lower(provider) !in prices ==> r == 0.0
    ensures lower(provider) in prices ==>
              var list := prices[lower(provider)];
              && ((forall k :: 0 <= k < |list| ==> !Contains(lower(model), lower(list[k].prefix))) ==> r == 0.0)
              && forall i: nat :: IsFirstMatch(list, lower, model, i) ==> r == CostAt(list[i], inputToks, outputToks)
  {
  }

  /** With prices and token counts that are not negative, neither are estimates. */
  lemma EstimateIsNotNegative(prices: Prices, lower: string -> string, provider: string, model: string,
                              inputToks: int, outputToks: int, r: real)
    requires IsEstimate(prices, lower, provider, model, inputToks, outputToks, r)
    requires 0 <= inputToks && 0 <= outputToks
    requires forall k, i :: k in prices && 0 <= i < |prices[k]| ==>
               0.0 <= prices[k][i].inputPerM && 0.0 <= prices[k][i].outputPerM
    ensures 0.0 <= r
  {
    if lower(provider) in prices {
      var list := prices[lower(provider)];
      if i :| 0 <= i < |list| && r == CostAt(list[i], inputToks, outputToks) {
        ProductIsNotNegative(inputToks as real / 1000000.0, list[i].inputPerM);
        ProductIsNotNegative(outputToks as real / 1000000.0, list[i].outputPerM);
      }
    }
  }

  // ---------------------------------------------------------------------------------------------
  // Decisions
  // ---------------------------------------------------------------------------------------------

  const DAY := 86400.0

  datatype Action = Allow | Warn | Block

  datatype Limits = Limits(session: real, daily: real, warnAt: real)

  datatype Track = Track(dailySpend: real, lastReset: real)

  function Fresh(t: Track, now: real): Track {
    if now - t.lastReset >= DAY then Track(0.0, now) else t
  }

  /** One limit: 0 or less means none. */
  function Judge(limit: real, warnAt: real, spent: real, estimate: real): Action {
    if limit <= 0.0 then Allow
    else if spent + estimate > limit then Block
    else if spent + estimate > limit * warnAt then Warn
    else Allow
  }

  /** The daily limit speaks first, and only an undisputed turn is added to the day. */
  function Decide(l: Limits, t: Track, now: real, estimate: real, sessionSpend: real): (Track, Action) {
    var day := Fresh(t, now);
    var daily := Judge(l.daily, l.warnAt, day.dailySpend, estimate);
    var action := if daily.Allow? then Judge(l.session, l.warnAt, sessionSpend, estimate) else daily;
    (if action.Allow? then day.(dailySpend := day.dailySpend + estimate) else day, action)
  }

  /** The decision in numbers.  After a reset the day has spent nothing; the daily limit is looked at first and
      has the last word when it blocks or warns; a projection above a limit blocks, one above its threshold
      only warns; what is allowed, and nothing else, is added to the day. */
  lemma DecisionIff(l: Limits, t: Track, now: real, estimate: real, sessionSpend: real)
    ensures var (t', action) := Decide(l, t, now, estimate, sessionSpend);
            var reset := now - t.lastReset >= 86400.0;
            var spent := if reset then 0.0 else t.dailySpend;
            var d, p := spent + estimate, sessionSpend + estimate;
            var quiet := l.daily <= 0.0 || (d <= l.daily && d <= l.daily * l.warnAt);
            && (action == Block <==> (l.daily > 0.0 && d > l.daily) || (quiet && l.session > 0.0 && p > l.session))
            && (action == Warn <==>
                  || (l.daily > 0.0 && l.daily * l.warnAt < d <= l.daily)
                  || (quiet && l.session > 0.0 && l.session * l.warnAt < p <= l.session))
            && t'.lastReset == (if reset then now else t.lastReset)
            && t'.dailySpend == if action == Allow then d else spent
  {
  }

  class Guard {
    const limits: Limits
    const sessionBase: real
    var dailySpend: real
    var lastReset: real

    ghost function State(): Track
      reads this
    {
      Track(dailySpend, lastReset)
    }

    constructor (limits: Limits, billed: real, now: real)
      ensures this.limits == limits && sessionBase == billed && State() == Track(0.0, now)
    {
      this.limits, sessionBase, dailySpend, lastReset := limits, billed, 0.0, now;
    }

    /** `billed` is the billing manager's session total at the time of the call. */
    method CheckAndTrack(now: real, estimated: real, billed: real) returns (action: Action)
      modifies this
      ensures (State(), action) == Decide(limits, old(State()), now, estimated, billed - sessionBase)
    {
      if now - lastReset >= DAY {
        dailySpend, lastReset := 0.0, now;
      }
      var sessionSpend := billed - sessionBase;
      if limits.daily > 0.0 {
        var projectedDaily := dailySpend + estimated;
        if projectedDaily > limits.daily {
          return Block;
        } else if projectedDaily > limits.daily * limits.warnAt {
          return Warn;
        }
      }
      if limits.session > 0.0 {
        var projectedSession := sessionSpend + estimated;
        if projectedSession > limits.session {
          return Block;
        } else if projectedSession > limits.session * limits.warnAt {
          return Warn;
        }
      }
      dailySpend := dailySpend + estimated;
      return Allow;
    }
  }

  // ---------------------------------------------------------------------------------------------
  // Runs
  // ---------------------------------------------------------------------------------------------

  /** A turn: when it is checked, its estimate, and what it is billed if it is not blocked. */
  datatype Turn = Turn(now: real, estimate: real, cost: real)

  datatype World = World(track: Track, sessionSpend: real)

  function ActionOf(l: Limits, w: World, t: Turn): Action {
    Decide(l, w.track, t.now, t.estimate, w.sessionSpend).1
  }

  function Next(l: Limits, w: World, t: Turn): World {
    World(Decide(l, w.track, t.now, t.estimate, w.sessionSpend).0,
          if ActionOf(l, w, t).Block? then w.sessionSpend else w.sessionSpend + t.cost)
  }

  function After(l: Limits, start: real, run: seq<Turn>): World {
    if run == [] then World(Track(0.0, start), 0.0)
    else Next(l, After(l, start, run[..|run| - 1]), run[|run| - 1])
  }

  /** A blocked turn costs nothing; any other is billed what it costs, warned about or not. */
  lemma TurnsAreBilledUnlessBlocked(l: Limits, w: World, t: Turn)
    ensures var action := Decide(l, w.track, t.now, t.estimate, w.sessionSpend).1;
            Next(l, w, t).sessionSpend - w.sessionSpend == if action == Block then 0.0 else t.cost
  {
  }

  /** Every turn is billed at most its estimate. */
  ghost predicate Honest(run: seq<Turn>) {
    forall i :: 0 <= i < |run| ==> 0.0 <= run[i].cost <= run[i].estimate
  }

  /** The session limit holds over every honest run. */
  ghost predicate EnforcesSession(l: Limits) {
    forall run: seq<Turn> :: Honest(run) ==> After(l, 0.0, run).sessionSpend <= l.session
  }

  lemma MulLess(a: real, b: real, c: real)
    requires a <= b && 0.0 < c
    ensures c * a <= c * b
  {
  }

  lemma NeverWarns(limit: real, warnAt: real, spent: real, estimate: real)
    requires limit <= 0.0 || 1.0 <= warnAt
    ensures Judge(limit, warnAt, spent, estimate) != Warn
  {
    if 0.0 < limit {
      MulLess(1.0, warnAt, limit);
    }
  }

  /** When the daily limit never warns, a turn that is not blocked fits the session limit. */
  lemma UnblockedTurnFits(l: Limits, t: Track, now: real, estimate: real, sessionSpend: real)
    requires 0.0 < l.session && (l.daily <= 0.0 || 1.0 <= l.warnAt)
    requires !Decide(l, t, now, estimate, sessionSpend).1.Block?
    ensures sessionSpend + estimate <= l.session
  {
    NeverWarns(l.daily, l.warnAt, Fresh(t, now).dailySpend, estimate);
  }

  lemma {:induction false} SessionHolds(l: Limits, start: real, run: seq<Turn>)
    requires 0.0 < l.session && (l.daily <= 0.0 || 1.0 <= l.warnAt) && Honest(run)
    ensures After(l, start, run).sessionSpend <= l.session
    decreases |run|
  {
    if run != [] {
      var init, t := run[..|run| - 1], run[|run| - 1];
      var w := After(l, start, init);
      SessionHolds(l, start, init);
      if !ActionOf(l, w, t).Block? {
        UnblockedTurnFits(l, w.track, t.now, t.estimate, w.sessionSpend);
      }
    }
  }

  /** Turns that each project exactly the daily limit: the guard warns every time, adds nothing to
      the day and never looks at the session. */
  function AtTheLimit(l: Limits, n: nat): seq<Turn> { seq(n, _ => Turn(0.0, l.daily, l.daily)) }

  /** `n` times the same amount. */
  function Times(n: nat, amount: real): real { if n == 0 then 0.0 else Times(n - 1, amount) + amount }

  lemma StrictlyBelow(a: real, w: real)
    requires 0.0 < a && w < 1.0
    ensures a * w < a
  {
  }

  lemma LimitJudgedWarn(limit: real, warnAt: real)
    requires 0.0 < limit && warnAt < 1.0
    ensures Judge(limit, warnAt, 0.0, limit) == Warn
  {
    StrictlyBelow(limit, warnAt);
  }

  lemma LimitIsWarned(l: Limits, t: Track, sessionSpend: real)
    requires 0.0 < l.daily && l.warnAt < 1.0 && t == Track(0.0, 0.0)
    ensures Decide(l, t, 0.0, l.daily, sessionSpend) == (t, Warn)
  {
    LimitJudgedWarn(l.daily, l.warnAt);
  }

  lemma {:induction false} WarnedTurnsRunForEver(l: Limits, n: nat)
    requires 0.0 < l.daily && l.warnAt < 1.0
    ensures After(l, 0.0, AtTheLimit(l, n)) == World(Track(0.0, 0.0), Times(n, l.daily))
    ensures Honest(AtTheLimit(l, n))
    decreases n
  {
    if n == 0 {
      assert AtTheLimit(l, n) == [];
    } else {
      WarnedTurnsRunForEver(l, n - 1);
      assert AtTheLimit(l, n)[..n - 1] == AtTheLimit(l, n - 1);
      LimitIsWarned(l, Track(0.0, 0.0), Times(n - 1, l.daily));
    }
  }

  lemma {:induction false} TimesIsProduct(n: nat, amount: real)
    ensures Times(n, amount) == n as real * amount
  {
    if n > 0 {
      TimesIsProduct(n - 1, amount);
    }
  }

  lemma QuotientBelow(q: real, n: real, d: real)
    requires q < n && 0.0 < d
    ensures q * d < n * d
  {
  }

  /** Enough of the same amount passes any bound. */
  lemma TimesExceeds(amount: real, bound: real) returns (n: nat)
    requires 0.0 < amount && 0.0 < bound
    ensures Times(n, amount) > bound
  {
    var q := bound / amount;
    n := q.Floor + 1;
    TimesIsProduct(n, amount);
    QuotientBelow(q, n as real, amount);
  }

  /** The session limit is enforced exactly when the daily limit is off or cannot warn: a daily warning
      returns before the session is looked at. */
  lemma SessionIsEnforcedIff(l: Limits)
    requires 0.0 < l.session
    ensures EnforcesSession(l) <==> l.daily <= 0.0 || 1.0 <= l.warnAt
  {
    if l.daily <= 0.0 || 1.0 <= l.warnAt {
      forall run: seq<Turn> | Honest(run)
        ensures After(l, 0.0, run).sessionSpend <= l.session
      {
        SessionHolds(l, 0.0, run);
      }
    } else {
      var n := TimesExceeds(l.daily, l.session);
      WarnedTurnsRunForEver(l, n);
      assert Honest(AtTheLimit(l, n)) && After(l, 0.0, AtTheLimit(l, n)).sessionSpend > l.session;
    }
  }

  /** All within one day of the start, so that no reset comes in between. */
  ghost predicate WithinADay(run: seq<Turn>) { forall i :: 0 <= i < |run| ==> run[i].now < 86400.0 }

  /** The daily limit holds for the money billed over every honest run of one day. */
  ghost predicate EnforcesDaily(l: Limits) {
    forall run: seq<Turn> :: Honest(run) && WithinADay(run) ==> After(l, 0.0, run).sessionSpend <= l.daily
  }

  /** When no limit can warn, a turn is blocked or added to the day with at least what it is billed. */
  lemma UnblockedTurnIsAdded(l: Limits, w: World, t: Turn)
    requires 0.0 < l.daily && 1.0 <= l.warnAt && 0.0 <= t.cost <= t.estimate
    requires w.track.lastReset == 0.0 && t.now < DAY && w.sessionSpend <= w.track.dailySpend <= l.daily
    ensures var w' := Next(l, w, t);
            w'.track.lastReset == 0.0 && w'.sessionSpend <= w'.track.dailySpend <= l.daily
  {
    NeverWarns(l.daily, l.warnAt, w.track.dailySpend, t.estimate);
    NeverWarns(l.session, l.warnAt, w.sessionSpend, t.estimate);
  }

  lemma {:induction false} DailyHolds(l: Limits, run: seq<Turn>)
    requires 0.0 < l.daily && 1.0 <= l.warnAt && Honest(run) && WithinADay(run)
    ensures var w := After(l, 0.0, run);
            w.track.lastReset == 0.0 && w.sessionSpend <= w.track.dailySpend <= l.daily
    decreases |run|
  {
    if run != [] {
      var init, t := run[..|run| - 1], run[|run| - 1];
      DailyHolds(l, init);
      UnblockedTurnIsAdded(l, After(l, 0.0, init), t);
    }
  }

  /** With a warning threshold below the limit, one day's warned turns can be billed any amount. */
  lemma DailyLimitDoesNotBoundBilling(l: Limits, bound: real) returns (run: seq<Turn>)
    requires 0.0 < l.daily && l.warnAt < 1.0 && 0.0 < bound
    ensures Honest(run) && WithinADay(run)
    ensures After(l, 0.0, run).sessionSpend > bound
  {
    var n := TimesExceeds(l.daily, bound);
    WarnedTurnsRunForEver(l, n);
    run := AtTheLimit(l, n);
  }

  /** The daily limit bounds what is billed in a day exactly when it cannot warn: warned turns run and
      are not added. */
  lemma DailyIsEnforcedIff(l: Limits)
    requires 0.0 < l.daily
    ensures EnforcesDaily(l) <==> 1.0 <= l.warnAt
  {
    if 1.0 <= l.warnAt {
      forall run: seq<Turn> | Honest(run) && WithinADay(run)
        ensures After(l, 0.0, run).sessionSpend <= l.daily
      {
        DailyHolds(l, run);
      }
    } else {
      var run := DailyLimitDoesNotBoundBilling(l, l.daily);
      assert Honest(run) && WithinADay(run) && After(l, 0.0, run).sessionSpend > l.daily;
    }
  }

  // ---------------------------------------------------------------------------------------------
  // Any 24 hours
  // ---------------------------------------------------------------------------------------------

  ghost predicate Ordered(run: seq<Turn>) { forall i, j :: 0 <= i < j < |run| ==> run[i].now <= run[j].now }

  /** The turns from `i` on all fall within one day. */
  ghost predicate IsWindow(run: seq<Turn>, i: nat) {
    i <= |run| && forall j :: i <= j < |run| ==> run[j].now - run[i].now < 86400.0
  }

  /** What the turns from `i` on are billed. */
  function BilledFrom(l: Limits, run: seq<Turn>, i: nat): real
    requires i <= |run|
  {
    After(l, 0.0, run).sessionSpend - After(l, 0.0, run[..i]).sessionSpend
  }

  /** One turn when no limit can warn: it is billed at most what it adds to the day. */
  lemma TurnAddsItsCost(l: Limits, w: World, t: Turn)
    requires 0.0 < l.daily && 1.0 <= l.warnAt && 0.0 <= t.cost <= t.estimate && 0.0 <= w.track.dailySpend <= l.daily
    ensures var w' := Next(l, w, t); var day := Fresh(w.track, t.now);
            && w'.track.lastReset == day.lastReset
            && 0.0 <= w'.sessionSpend - w.sessionSpend <= w'.track.dailySpend - day.dailySpend
            && 0.0 <= w'.track.dailySpend <= l.daily
  {
    NeverWarns(l.daily, l.warnAt, Fresh(w.track, t.now).dailySpend, t.estimate);
    NeverWarns(l.session, l.warnAt, w.sessionSpend, t.estimate);
  }

  lemma {:induction false} DayStaysInRange(l: Limits, run: seq<Turn>)
    requires 0.0 < l.daily && 1.0 <= l.warnAt && Honest(run)
    ensures 0.0 <= After(l, 0.0, run).track.dailySpend <= l.daily && 0.0 <= After(l, 0.0, run).sessionSpend
    decreases |run|
  {
    if run != [] {
      var init := run[..|run| - 1];
      DayStaysInRange(l, init);
      TurnAddsItsCost(l, After(l, 0.0, init), run[|run| - 1]);
    }
  }

  /** Before a reset the window has spent at most what the day shows, after it one more day's limit; and a
      window has room for one reset only. */
  ghost predicate WindowInv(l: Limits, run: seq<Turn>, i: nat)
    requires i < |run|
  {
    var w := After(l, 0.0, run);
    || BilledFrom(l, run, i) <= w.track.dailySpend
    || (BilledFrom(l, run, i) <= l.daily + w.track.dailySpend && run[i].now <= w.track.lastReset)
  }

  lemma WindowStep(l: Limits, run: seq<Turn>, i: nat)
    requires 0.0 < l.daily && 1.0 <= l.warnAt && Honest(run) && Ordered(run) && IsWindow(run, i)
    requires i < |run| - 1 && WindowInv(l, run[..|run| - 1], i)
    ensures WindowInv(l, run, i)
  {
    var init, t := run[..|run| - 1], run[|run| - 1];
    assert init[..i] == run[..i] && init[i] == run[i];
    DayStaysInRange(l, init);
    TurnAddsItsCost(l, After(l, 0.0, init), t);
  }

  lemma {:induction false} WindowKeepsInv(l: Limits, run: seq<Turn>, i: nat)
    requires 0.0 < l.daily && 1.0 <= l.warnAt && Honest(run) && Ordered(run) && i < |run| && IsWindow(run, i)
    ensures WindowInv(l, run, i)
    decreases |run|
  {
    var n := |run| - 1;
    if i < n {
      WindowKeepsInv(l, run[..n], i);
      WindowStep(l, run, i);
    } else {
      DayStaysInRange(l, run[..n]);
      TurnAddsItsCost(l, After(l, 0.0, run[..n]), run[n]);
    }
  }

  /** The most that any 24 hours can be billed: two days' limits, or the session limit if that is less. */
  function Peak(l: Limits): real {
    if 0.0 < l.session < l.daily + l.daily then l.session else l.daily + l.daily
  }

  lemma WindowIsBounded(l: Limits, run: seq<Turn>, i: nat)
    requires 0.0 < l.daily && 1.0 <= l.warnAt && Honest(run) && Ordered(run) && IsWindow(run, i)
    ensures BilledFrom(l, run, i) <= Peak(l)
  {
    DayStaysInRange(l, run);
    DayStaysInRange(l, run[..i]);
    if 0.0 < l.session {
      SessionHolds(l, 0.0, run);
    }
    if i < |run| {
      WindowKeepsInv(l, run, i);
    } else {
      assert run[..i] == run;
    }
  }

  /** One turn just before the reset and one at it. */
  function AroundReset(e: real): seq<Turn> { [Turn(86399.0, e, e), Turn(86400.0, e, e)] }

  lemma PeakIsReached(l: Limits, run: seq<Turn>)
    requires 0.0 < l.daily && 1.0 <= l.warnAt && run == AroundReset(Peak(l) / 2.0)
    ensures Honest(run) && Ordered(run) && IsWindow(run, 0) && BilledFrom(l, run, 0) == Peak(l)
  {
    var e := Peak(l) / 2.0;
    var w1 := Next(l, World(Track(0.0, 0.0), 0.0), run[0]);
    NeverWarns(l.daily, l.warnAt, 0.0, e);
    NeverWarns(l.session, l.warnAt, 0.0, e);
    NeverWarns(l.session, l.warnAt, e, e);
    assert w1 == World(Track(e, 0.0), e);
    assert run[..1][..0] == [] && run[..1] == [run[0]] && run[..0] == [];
    assert After(l, 0.0, run[..1]) == w1;
    assert Next(l, w1, run[1]) == World(Track(e, DAY), e + e);
  }

  /** The daily limit as a limit on any 24 hours. */
  ghost predicate EnforcesRolling(l: Limits, bound: real) {
    forall run: seq<Turn>, i: nat :: Honest(run) && Ordered(run) && IsWindow(run, i) ==>
      BilledFrom(l, run, i) <= bound
  }

  /** Without warnings the bound on any 24 hours is exactly the peak. */
  lemma RollingBoundIff(l: Limits, bound: real)
    requires 0.0 < l.daily && 1.0 <= l.warnAt
    ensures EnforcesRolling(l, bound) <==> Peak(l) <= bound
  {
    if Peak(l) <= bound {
      forall run: seq<Turn>, i: nat | Honest(run) && Ordered(run) && IsWindow(run, i)
        ensures BilledFrom(l, run, i) <= bound
      {
        WindowIsBounded(l, run, i);
      }
    } else {
      var run := AroundReset(Peak(l) / 2.0);
      PeakIsReached(l, run);
      assert Honest(run) && Ordered(run) && IsWindow(run, 0);
    }
  }

  /** So the daily limit holds over every 24 hours only where the session limit sees to it. */
  lemma RollingIsEnforcedIff(l: Limits)
    requires 0.0 < l.daily
    ensures EnforcesRolling(l, l.daily) <==> 1.0 <= l.warnAt && 0.0 < l.session <= l.daily
  {
    if 1.0 <= l.warnAt {
      RollingBoundIff(l, l.daily);
    } else {
      var n := TimesExceeds(l.daily, l.daily);
      var run := AtTheLimit(l, n);
      WarnedTurnsRunForEver(l, n);
      assert run[..0] == [] && BilledFrom(l, run, 0) == Times(n, l.daily);
      assert Honest(run) && Ordered(run) && IsWindow(run, 0);
    }
  }

  // ---------------------------------------------------------------------------------------------
  // The day
  // ---------------------------------------------------------------------------------------------

  ghost predicate Resets(l: Limits, start: real, run: seq<Turn>, i: nat)
    requires i < |run|
  {
    run[i].now - After(l, start, run[..i]).track.lastReset >= DAY
  }

  /** The estimates of the turns from `r` on that were allowed without a warning. */
  function AllowedSince(l: Limits, start: real, run: seq<Turn>, r: nat): real
    requires r <= |run|
    decreases |run|
  {
    if |run| == r then 0.0
    else
      var init, t := run[..|run| - 1], run[|run| - 1];
      AllowedSince(l, start, init, r) + if ActionOf(l, After(l, start, init), t).Allow? then t.estimate else 0.0
  }

  /** The daily figure is the sum of the estimates allowed since the last reset. */
  lemma {:induction false} DailySpendIsAllowedSum(l: Limits, start: real, run: seq<Turn>) returns (r: nat)
    ensures r <= |run| && (r == 0 || (r < |run| && Resets(l, start, run, r)))
    ensures forall i :: r < i < |run| ==> !Resets(l, start, run, i)
    ensures After(l, start, run).track.dailySpend == AllowedSince(l, start, run, r)
    decreases |run|
  {
    if run == [] {
      r := 0;
    } else {
      var n := |run| - 1;
      if Resets(l, start, run, n) {
        r := n;
        assert AllowedSince(l, start, run[..n], n) == 0.0;
      } else {
        r := DailySpendIsAllowedSum(l, start, run[..n]);
        forall i | 0 <= i < n
          ensures Resets(l, start, run, i) <==> Resets(l, start, run[..n], i)
        {
          assert run[..n][..i] == run[..i];
        }
      }
    }
  }

  lemma TurnStaysBelowWarning(l: Limits, w: World, t: Turn)
    requires 0.0 < l.daily && 0.0 <= l.daily * l.warnAt && w.track.dailySpend <= l.daily * l.warnAt
    ensures Next(l, w, t).track.dailySpend <= l.daily * l.warnAt
  {
    DecisionIff(l, w.track, t.now, t.estimate, w.sessionSpend);
  }

  /** With a daily limit the figure never passes the warning threshold. */
  lemma {:induction false} DailySpendStaysBelowWarning(l: Limits, start: real, run: seq<Turn>)
    requires 0.0 < l.daily && 0.0 <= l.warnAt
    ensures After(l, start, run).track.dailySpend <= l.daily * l.warnAt
    decreases |run|
  {
    ProductIsNotNegative(l.daily, l.warnAt);
    if run != [] {
      DailySpendStaysBelowWarning(l, start, run[..|run| - 1]);
      TurnStaysBelowWarning(l, After(l, start, run[..|run| - 1]), run[|run| - 1]);
    }
  }
}
