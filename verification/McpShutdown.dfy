/**
 What Stop achieves.  Closing `stopCh` does not forbid later bootstraps: a goroutine that is already
 past the watchdog's stop check, or that a failed call has launched, still restarts the server.  The
 bootstraps that can follow are counted exactly by the goroutines still able to perform one, and the
 whole system comes to rest.
 */
module McpShutdown {
  import opened Common
  import opened McpLifecycle

  /** Goroutines that still have a bootstrap ahead of them. */
  function Pending(pc: Pc): nat {
    if pc.StartEntry? || pc.Boot? || pc.RecoverEntry? || pc.RecoverGrab? || pc.RecoverMark?
       || pc.RecoverStop? || pc.RecoverSleep? then 1 else 0
  }

  /** Tool calls in flight: each may fail and launch one recovery. */
  function Calling(pc: Pc): nat {
    if pc.CallEntry? || pc.CallLock? || pc.CallSnapshot? || pc.CallAwait? then 1 else 0
  }

  function MayBoot(pc: Pc): nat { Pending(pc) + Calling(pc) }

  /** The steps by which clients ask for more. */
  predicate IsRequest(st: Step) { st.NewStart? || st.NewCall? }

  function Requests(run: seq<Step>): nat {
    if run == [] then 0 else (if IsRequest(run[0]) then 1 else 0) + Requests(run[1..])
  }

  /** No client call of any kind, Stop included. */
  ghost predicate Unattended(run: seq<Step>) {
    forall i :: 0 <= i < |run| ==> run[i].Run? || run[i].Die?
  }

  function Boots(e: Edit): nat { if e.Create? then 1 else 0 }

  lemma ActSpendsBoots(pc: Pc, t: nat, f: Fields, procs: seq<Proc>, c: Choice)
    requires f.stopClosed && Act(pc, t, f, procs, c).Some?
    ensures var e := Act(pc, t, f, procs, c).value;
            && e.f.stopClosed
            && MayBoot(e.pc) + (if e.spawn.Some? then MayBoot(e.spawn.value) else 0) + Boots(e.edit)
               <= MayBoot(pc)
  {
  }

  lemma EditCountsBoots(procs: seq<Proc>, e: Edit, t: nat, n: nat)
    ensures |Apply(procs, e, t, n)| == |procs| + Boots(e)
  {
  }

  lemma PerformSpendsBoots(s: State, t: nat, e: Effect)
    requires t < |s.threads|
    requires MayBoot(e.pc) + (if e.spawn.Some? then MayBoot(e.spawn.value) else 0) + Boots(e.edit)
             <= MayBoot(s.threads[t])
    ensures var s' := Perform(s, t, e);
            && |s.procs| <= |s'.procs|
            && |s'.procs| - |s.procs| + Sum(s'.threads, MayBoot) <= Sum(s.threads, MayBoot)
  {
    SumPerform(s, t, e, MayBoot);
    EditCountsBoots(s.procs, e.edit, t, |s.threads|);
  }

  lemma StepSpendsBoots(s: State, st: Step)
    requires s.f.stopClosed && Next(s, st).Some?
    ensures var s' := Next(s, st).value;
            && s'.f.stopClosed
            && |s.procs| <= |s'.procs|
            && |s'.procs| - |s.procs| + Sum(s'.threads, MayBoot)
               <= Sum(s.threads, MayBoot) + (if IsRequest(st) then 1 else 0)
  {
    match st {
      case Run(t, c) =>
        var e := Act(s.threads[t], t, s.f, s.procs, c).value;
        ActSpendsBoots(s.threads[t], t, s.f, s.procs, c);
        PerformSpendsBoots(s, t, e);
      case Die(_) =>
      case NewStart => SumAppend(s.threads, StartEntry, MayBoot);
      case NewStop => SumAppend(s.threads, StopEntry, MayBoot);
      case NewCall => SumAppend(s.threads, CallEntry, MayBoot);
    }
  }

  /** Once `stopCh` is closed, every bootstrap uses up one goroutine that was able to bootstrap, and
      only new Start and CallTool calls add such goroutines. */
  lemma {:induction false} BootsAfterStopAreBounded(s: State, run: seq<Step>)
    requires s.f.stopClosed && Exec(s, run).Some?
    ensures var s' := Exec(s, run).value;
            && s'.f.stopClosed
            && |s'.procs| - |s.procs| + Sum(s'.threads, MayBoot)
               <= Sum(s.threads, MayBoot) + Requests(run)
    decreases |run|
  {
    if run != [] {
      StepSpendsBoots(s, run[0]);
      BootsAfterStopAreBounded(Next(s, run[0]).value, run[1..]);
    }
  }

  // ---------------------------------------------------------------------------------------------
  // Coming to rest
  // ---------------------------------------------------------------------------------------------

  /** An upper bound on the steps a goroutine and everything it causes can still take. */
  function Work(pc: Pc): nat {
    match pc
    case CallEntry => 20
    case CallLock => 19
    case CallSnapshot => 18
    case CallAwait(_) => 17
    case RecoverEntry => 16
    case RecoverGrab => 15
    case RecoverMark => 14
    case RecoverStop(_) => 13
    case RecoverSleep => 12
    case StartEntry => 12
    case Boot(_) => 11
    case BootStarted(_, _) => 9
    case AssignClient(_, _) => 8
    case AssignTools(_, _) => 7
    case AssignRunning(_, _) => 6
    case BootDone(_, _) => 5
    case BootFailed(_) => 2
    case RecoverLaunch(_) => 4
    case RecoverRelease => 1
    case WatchSelect(_) => 2
    case WatchCheck(_) => 1
    case StopEntry => 4
    case StopLock => 3
    case StopMark => 2
    case StopKill(_) => 1
    case Done => 0
    case Crashed => 0
  }

  function Alive(q: Proc): nat { if q.started && !q.dead then 1 else 0 }

  function Remaining(s: State): nat { Sum(s.threads, Work) + Sum(s.procs, Alive) }

  lemma ActDoesWork(pc: Pc, t: nat, f: Fields, procs: seq<Proc>, c: Choice)
    requires f.stopClosed && Act(pc, t, f, procs, c).Some?
    ensures var e := Act(pc, t, f, procs, c).value;
            Work(e.pc) + (if e.spawn.Some? then Work(e.spawn.value) else 0) + Boots(e.edit) < Work(pc)
  {
  }

  lemma EditKeepsAlive(procs: seq<Proc>, e: Edit, t: nat, n: nat)
    ensures Sum(Apply(procs, e, t, n), Alive) <= Sum(procs, Alive) + Boots(e)
  {
    match e {
      case Create(ok) => SumAppend(procs, Proc(t, ok, false, false, 0, []), Alive);
      case Stopped(Some(p)) =>
        if p < |procs| { SumUpdate(procs, p, Apply(procs, e, t, n)[p], Alive); }
      case Adopted(p) =>
        if p < |procs| { SumUpdate(procs, p, Apply(procs, e, t, n)[p], Alive); }
      case Watched(p) =>
        if p < |procs| { SumUpdate(procs, p, Apply(procs, e, t, n)[p], Alive); }
      case _ =>
    }
  }

  lemma StepDoesWork(s: State, st: Step)
    requires s.f.stopClosed && Next(s, st).Some? && (st.Run? || st.Die?)
    ensures Next(s, st).value.f.stopClosed && Remaining(Next(s, st).value) < Remaining(s)
  {
    match st {
      case Run(t, c) =>
        var e := Act(s.threads[t], t, s.f, s.procs, c).value;
        ActSpendsBoots(s.threads[t], t, s.f, s.procs, c);
        ActDoesWork(s.threads[t], t, s.f, s.procs, c);
        SumPerform(s, t, e, Work);
        EditKeepsAlive(s.procs, e.edit, t, |s.threads|);
      case Die(p) =>
        SumUpdate(s.procs, p, s.procs[p].(dead := true), Alive);
    }
  }

  /** After Stop, left alone, the server stops moving within a number of steps known beforehand. */
  lemma {:induction false} StopQuiesces(s: State, run: seq<Step>)
    requires s.f.stopClosed && Unattended(run) && Exec(s, run).Some?
    ensures |run| + Remaining(Exec(s, run).value) <= Remaining(s)
    decreases |run|
  {
    if run != [] {
      StepDoesWork(s, run[0]);
      StopQuiesces(Next(s, run[0]).value, run[1..]);
    }
  }

  /** No goroutine can move. */
  ghost predicate AtRest(s: State) {
    forall t, c :: 0 <= t < |s.threads| ==> Next(s, Run(t, c)).None?
  }

  /** With no goroutine able to move, after Stop every one has ended, the lock is free and no recovery
      is marked. */
  lemma RestIsClean(history: seq<Step>, s: State)
    requires Exec(INIT, history) == Some(s) && s.f.stopClosed && AtRest(s)
    ensures forall t :: 0 <= t < |s.threads| ==> s.threads[t] == Done
    ensures s.f.mu.None? && !s.f.recovering
  {
    RunKeepsInv(INIT, history);
    StuckFreesLock(s);
    forall t | 0 <= t < |s.threads|
      ensures s.threads[t] == Done
    {
      assert Next(s, Run(t, Ok)).None? && Next(s, Run(t, Err)).None?;
      assert ThreadOk(s, t);
      OnlyTheLockBlocks(s.threads[t], t, s.f, s.procs);
    }
    if s.f.recovering {
      var t := SumPositive(s.threads, RecoveryCount);
    }
  }

  lemma StuckFreesLock(s: State)
    requires Inv(s) && AtRest(s)
    ensures s.f.mu.None?
  {
    if s.f.mu.Some? {
      var u := s.f.mu.value;
      assert HoldsMu(s.threads[u]) && Next(s, Run(u, Ok)).None?;
      HolderMoves(s.threads[u], u, s.f, s.procs);
    }
  }

  lemma HolderMoves(pc: Pc, t: nat, f: Fields, procs: seq<Proc>)
    requires HoldsMu(pc)
    ensures Act(pc, t, f, procs, Ok).Some?
  {
  }

  lemma OnlyTheLockBlocks(pc: Pc, t: nat, f: Fields, procs: seq<Proc>)
    requires f.mu.None? && f.stopClosed && pc != Crashed
    ensures pc == Done || Act(pc, t, f, procs, Ok).Some? || Act(pc, t, f, procs, Err).Some?
  {
  }

  // ---------------------------------------------------------------------------------------------
  // Exactly when a further bootstrap is possible
  // ---------------------------------------------------------------------------------------------

  ghost predicate CanStillBoot(s: State) {
    exists run :: Unattended(run) && BootsMore(s, run)
  }

  ghost predicate BootsMore(s: State, run: seq<Step>) {
    Exec(s, run).Some? && |Exec(s, run).value.procs| > |s.procs|
  }

  /** Calls that wait for an answer from a client: each may fail and launch a recovery. */
  function Failing(pc: Pc): nat { if pc.CallAwait? && pc.via.Some? then 1 else 0 }

  /** Calls that have not read the client yet. */
  function Early(pc: Pc): nat { if pc.CallEntry? || pc.CallLock? || pc.CallSnapshot? then 1 else 0 }

  /** Bootstraps about to adopt their process. */
  function Starting(pc: Pc): nat { if pc.BootStarted? then 1 else 0 }

  /** A goroutine stands before its bootstrap, a call may fail on a client, or an early call may still
      find one. */
  predicate Hope(s: State) {
    || Sum(s.threads, Pending) > 0
    || Sum(s.threads, Failing) > 0
    || (Sum(s.threads, Early) > 0 && (s.f.pm.Some? || Sum(s.threads, Starting) > 0))
  }

  // Without hope nothing is bootstrapped any more.

  lemma ActWithoutHope(pc: Pc, t: nat, f: Fields, procs: seq<Proc>, c: Choice)
    requires f.stopClosed && Act(pc, t, f, procs, c).Some?
    requires Pending(pc) == 0 && Failing(pc) == 0 && (Early(pc) == 1 ==> f.client.None?)
    ensures var e := Act(pc, t, f, procs, c).value;
            && !e.edit.Create? && (e.spawn.Some? ==> e.spawn.value.WatchSelect? || e.spawn.value.Crashed?)
            && Pending(e.pc) == 0 && Failing(e.pc) == 0 && Starting(e.pc) == 0
            && Early(e.pc) <= Early(pc)
            && (Starting(pc) == 0 ==> e.f.pm == f.pm)
  {
  }

  lemma NoProcessNoClient(s: State)
    requires Inv(s) && s.f.pm.None?
    ensures s.f.client.None?
  {
    assert FieldsOk(Holder(s), s.f);
  }

  lemma StepWithoutHope(s: State, st: Step, s': State)
    requires Inv(s) && s.f.stopClosed && !Hope(s)
    requires (st.Run? || st.Die?) && Next(s, st) == Some(s')
    ensures !Hope(s') && |s'.procs| == |s.procs|
  {
    if st.Run? {
      var pc := s.threads[st.t];
      var e := Act(pc, st.t, s.f, s.procs, st.choice).value;
      SumAtLeast(s.threads, st.t, Pending);
      SumAtLeast(s.threads, st.t, Failing);
      SumAtLeast(s.threads, st.t, Early);
      SumAtLeast(s.threads, st.t, Starting);
      if Early(pc) == 1 {
        NoProcessNoClient(s);
      }
      ActWithoutHope(pc, st.t, s.f, s.procs, st.choice);
      PerformWithoutHope(s, st.t, e);
    }
  }

  lemma PerformWithoutHope(s: State, t: nat, e: Effect)
    requires !Hope(s) && t < |s.threads|
    requires !e.edit.Create? && (e.spawn.Some? ==> e.spawn.value.WatchSelect? || e.spawn.value.Crashed?)
    requires Pending(e.pc) == 0 && Failing(e.pc) == 0 && Starting(e.pc) == 0
    requires Early(e.pc) <= Early(s.threads[t])
    requires Starting(s.threads[t]) == 0 ==> e.f.pm == s.f.pm
    requires Starting(s.threads[t]) <= Sum(s.threads, Starting)
    ensures !Hope(Perform(s, t, e)) && |Perform(s, t, e).procs| == |s.procs|
  {
    SumPerform(s, t, e, Pending);
    SumPerform(s, t, e, Failing);
    SumPerform(s, t, e, Early);
    SumPerform(s, t, e, Starting);
    EditCountsBoots(s.procs, e.edit, t, |s.threads|);
  }

  lemma {:induction false} NoBootWithoutHope(s: State, run: seq<Step>)
    requires Inv(s) && s.f.stopClosed && !Hope(s) && Unattended(run) && Exec(s, run).Some?
    ensures |Exec(s, run).value.procs| == |s.procs|
    decreases |run|
  {
    if run != [] {
      var s1 := Next(s, run[0]).value;
      StepWithoutHope(s, run[0], s1);
      StepDoesWork(s, run[0]);
      StepKeepsInv(s, run[0], s1);
      NoBootWithoutHope(s1, run[1..]);
    }
  }

  // With hope some schedule leads to a bootstrap.

  lemma Prepend(s: State, st: Step, s1: State, rest: seq<Step>) returns (run: seq<Step>)
    requires st.Run? && Next(s, st) == Some(s1) && |s.procs| <= |s1.procs|
    requires Unattended(rest) && BootsMore(s1, rest)
    ensures Unattended(run) && BootsMore(s, run)
  {
    run := [st] + rest;
    assert run[1..] == rest;
  }

  /** A goroutine is blocked only by the lock; the lock holder never is. */
  lemma Unblocked(s: State, t: nat)
    requires Inv(s) && t < |s.threads|
    requires Pending(s.threads[t]) == 1 || HoldsMu(s.threads[t]) || InRecovery(s.threads[t])
    requires s.f.mu.None? || s.f.mu == Some(t)
    ensures Act(s.threads[t], t, s.f, s.procs, Ok).Some?
  {
    assert HoldsMu(s.threads[t]) <==> s.f.mu == Some(t);
  }

  /** The goroutine to schedule first: the lock holder, or with the lock free the one in recovery. */
  lemma PickNext(s: State) returns (u: nat)
    requires Inv(s) && (s.f.mu.Some? || s.f.recovering)
    ensures u < |s.threads| && Act(s.threads[u], u, s.f, s.procs, Ok).Some?
    ensures if s.f.mu.Some? then s.f.mu == Some(u) else InRecovery(s.threads[u])
  {
    if s.f.mu.Some? {
      u := s.f.mu.value;
      assert HoldsMu(s.threads[u]);
    } else {
      u := SumPositive(s.threads, RecoveryCount);
    }
    Unblocked(s, u);
  }

  /** One scheduled step: either it creates a process or the rest is shorter. */
  lemma StepTowards(s: State, u: nat, c: Choice, s1: State)
    requires Inv(s) && s.f.stopClosed && u < |s.threads| && Next(s, Run(u, c)) == Some(s1)
    ensures Inv(s1) && s1.f.stopClosed && Remaining(s1) < Remaining(s) && |s.procs| <= |s1.procs|
    ensures s.threads[u].Boot? ==> |s.procs| < |s1.procs|
    ensures |s.threads| <= |s1.threads|
    ensures forall t :: 0 <= t < |s.threads| && t != u ==> s1.threads[t] == s.threads[t]
    ensures s.f.pm.Some? ==> s1.f.pm.Some?
  {
    StepKeepsInv(s, Run(u, c), s1);
    StepDoesWork(s, Run(u, c));
    StepFrame(s, u, c, s1);
  }

  /** What a goroutine's step leaves alone. */
  lemma StepFrame(s: State, u: nat, c: Choice, s1: State)
    requires u < |s.threads| && Next(s, Run(u, c)) == Some(s1)
    ensures |s.procs| <= |s1.procs| && (s.threads[u].Boot? ==> |s.procs| < |s1.procs|)
    ensures |s.threads| <= |s1.threads|
    ensures forall t :: 0 <= t < |s.threads| && t != u ==> s1.threads[t] == s.threads[t]
    ensures s.f.pm.Some? ==> s1.f.pm.Some?
  {
    var e := Act(s.threads[u], u, s.f, s.procs, c).value;
    EditCountsBoots(s.procs, e.edit, u, |s.threads|);
    ActKeepsProcess(s.threads[u], u, s.f, s.procs, c);
    PerformFrame(s, u, e);
  }

  lemma PerformFrame(s: State, u: nat, e: Effect)
    requires u < |s.threads|
    ensures |s.threads| <= |Perform(s, u, e).threads|
    ensures forall t :: 0 <= t < |s.threads| && t != u ==> Perform(s, u, e).threads[t] == s.threads[t]
  {
  }

  lemma ActKeepsProcess(pc: Pc, t: nat, f: Fields, procs: seq<Proc>, c: Choice)
    requires Act(pc, t, f, procs, c).Some?
    ensures f.pm.Some? ==> Act(pc, t, f, procs, c).value.f.pm.Some?
  {
  }

  lemma BootNow(s: State, u: nat, s1: State) returns (run: seq<Step>)
    requires Next(s, Run(u, Ok)) == Some(s1) && |s.procs| < |s1.procs|
    ensures Unattended(run) && BootsMore(s, run)
  {
    run := [Run(u, Ok)];
    assert run[1..] == [];
  }

  lemma {:induction false} PendingCanBoot(s: State, t: nat) returns (run: seq<Step>)
    requires Inv(s) && s.f.stopClosed && t < |s.threads| && Pending(s.threads[t]) == 1
    ensures Unattended(run) && BootsMore(s, run)
    decreases Remaining(s)
  {
    var u := t;
    if s.f.mu.Some? || (s.threads[t].RecoverEntry? && s.f.recovering) {
      u := PickNext(s);
    } else {
      Unblocked(s, t);
    }
    var s1 := Next(s, Run(u, Ok)).value;
    StepTowards(s, u, Ok, s1);
    if s.threads[u].Boot? {
      run := BootNow(s, u, s1);
    } else {
      StaysPending(s, t, u, s1);
      var rest := PendingCanBoot(s1, t);
      run := Prepend(s, Run(u, Ok), s1, rest);
    }
  }

  lemma StaysPending(s: State, t: nat, u: nat, s1: State)
    requires t < |s.threads| && u < |s.threads| && Next(s, Run(u, Ok)) == Some(s1)
    requires Pending(s.threads[t]) == 1 && !s.threads[u].Boot?
    requires u == t ==> s.threads[t].RecoverEntry? ==> !s.f.recovering
    ensures t < |s1.threads| && Pending(s1.threads[t]) == 1
  {
  }

  /** A call that waits on a client fails and launches a recovery. */
  lemma FailingCanBoot(s: State, t: nat) returns (run: seq<Step>)
    requires Inv(s) && s.f.stopClosed && t < |s.threads| && Failing(s.threads[t]) == 1
    ensures Unattended(run) && BootsMore(s, run)
  {
    var s1 := Next(s, Run(t, Err)).value;
    StepTowards(s, t, Err, s1);
    FailedCallRecovers(s, t, s1);
    var rest := PendingCanBoot(s1, |s.threads|);
    run := Prepend(s, Run(t, Err), s1, rest);
  }

  lemma FailedCallRecovers(s: State, t: nat, s1: State)
    requires t < |s.threads| && Failing(s.threads[t]) == 1 && Next(s, Run(t, Err)) == Some(s1)
    ensures |s1.threads| == |s.threads| + 1 && s1.threads[|s.threads|] == RecoverEntry
  {
  }

  /** A process is there, or the lock holder is about to adopt one. */
  ghost predicate Adoptable(s: State) {
    s.f.pm.Some? || Holder(s).BootStarted?
  }

  lemma StartingHoldsLock(s: State)
    requires Inv(s) && (s.f.pm.Some? || Sum(s.threads, Starting) > 0)
    ensures Adoptable(s)
  {
    if s.f.pm.None? {
      var u := SumPositive(s.threads, Starting);
      assert HoldsMu(s.threads[u]);
    }
  }

  /** A call that has not read the client gets to read one, and to fail on it. */
  lemma {:induction false} EarlyCanBoot(s: State, t: nat) returns (run: seq<Step>)
    requires Inv(s) && s.f.stopClosed && t < |s.threads| && Early(s.threads[t]) == 1 && Adoptable(s)
    ensures Unattended(run) && BootsMore(s, run)
    decreases Remaining(s)
  {
    var u := t;
    assert HoldsMu(s.threads[t]) <==> s.f.mu == Some(t);
    if (s.f.mu.Some? && s.f.mu != Some(t)) || (s.threads[t].CallEntry? && s.f.recovering) {
      u := PickNext(s);
    }
    var s1 := Next(s, Run(u, Ok)).value;
    StepTowards(s, u, Ok, s1);
    if s.threads[u].Boot? {
      run := BootNow(s, u, s1);
    } else if s.threads[t].CallSnapshot? {
      ClientIsRead(s, t, s1);
      var rest := FailingCanBoot(s1, t);
      run := Prepend(s, Run(u, Ok), s1, rest);
    } else {
      StaysEarly(s, t, u, s1);
      var rest := EarlyCanBoot(s1, t);
      run := Prepend(s, Run(u, Ok), s1, rest);
    }
  }

  lemma ClientIsRead(s: State, t: nat, s1: State)
    requires Inv(s) && t < |s.threads| && s.threads[t].CallSnapshot? && Adoptable(s)
    requires Next(s, Run(t, Ok)) == Some(s1)
    ensures t < |s1.threads| && Failing(s1.threads[t]) == 1
  {
    assert HoldsMu(s.threads[t]) && s.f.mu == Some(t);
    assert FieldsOk(Holder(s), s.f);
  }

  lemma StaysEarly(s: State, t: nat, u: nat, s1: State)
    requires Inv(s) && Adoptable(s) && t < |s.threads| && u < |s.threads|
    requires Next(s, Run(u, Ok)) == Some(s1) && (s.f.mu.Some? ==> s.f.mu == Some(u))
    requires s.threads[t].CallEntry? || s.threads[t].CallLock?
    requires u == t ==> s.threads[t].CallEntry? ==> !s.f.recovering
    ensures t < |s1.threads| && Early(s1.threads[t]) == 1 && Adoptable(s1)
  {
    var e := Act(s.threads[u], u, s.f, s.procs, Ok).value;
    ActKeepsProcess(s.threads[u], u, s.f, s.procs, Ok);
  }

  /** After Stop and without new calls, the server can restart exactly when some goroutine stands
      before its bootstrap, a call in flight waits on a client, or an earlier call may find one. */
  lemma CanBootIffHope(history: seq<Step>, s: State)
    requires Exec(INIT, history) == Some(s) && s.f.stopClosed
    ensures CanStillBoot(s) <==> Hope(s)
  {
    RunKeepsInv(INIT, history);
    if Hope(s) {
      var run := HopeIsFulfilled(s);
      assert Unattended(run) && BootsMore(s, run);
    } else if CanStillBoot(s) {
      var run :| Unattended(run) && BootsMore(s, run);
      NoBootWithoutHope(s, run);
    }
  }

  lemma HopeIsFulfilled(s: State) returns (run: seq<Step>)
    requires Inv(s) && s.f.stopClosed && Hope(s)
    ensures Unattended(run) && BootsMore(s, run)
  {
    if Sum(s.threads, Pending) > 0 {
      var t := SumPositive(s.threads, Pending);
      run := PendingCanBoot(s, t);
    } else if Sum(s.threads, Failing) > 0 {
      var t := SumPositive(s.threads, Failing);
      run := FailingCanBoot(s, t);
    } else {
      StartingHoldsLock(s);
      var t := SumPositive(s.threads, Early);
      run := EarlyCanBoot(s, t);
    }
  }

  // ---------------------------------------------------------------------------------------------
  // A restart after a completed Stop
  // ---------------------------------------------------------------------------------------------

  /** The process has died and its watchdog, finding `stopCh` open, is about to recover. */
  const CRASHING := State([Done, RecoverEntry], STARTED.f, [Proc(0, true, false, true, 1, [1])])

  /** Stop has closed the channel and holds the lock. */
  const STOPPING := State([Done, RecoverEntry, StopMark],
                          STARTED.f.(mu := Some(2), stopClosed := true), CRASHING.procs)

  const STOP_RETURNED := State([Done, RecoverEntry, Done],
                              STARTED.f.(running := false, stopClosed := true),
                              [Proc(0, true, true, true, 1, [1])])

  lemma ProcessDies()
    ensures Exec(STARTED, [Die(0), Run(1, Ok), Run(1, Ok)]) == Some(CRASHING)
  {
    var r := Exec(STARTED, [Die(0), Run(1, Ok), Run(1, Ok)]).value;
    assert r.threads == CRASHING.threads && r.procs == CRASHING.procs;
  }

  lemma StopBegins()
    ensures Exec(CRASHING, [NewStop, Run(2, Ok), Run(2, Ok)]) == Some(STOPPING)
  {
    var r := Exec(CRASHING, [NewStop, Run(2, Ok), Run(2, Ok)]).value;
    assert r.threads == STOPPING.threads && r.procs == STOPPING.procs;
  }

  lemma StopReturns()
    ensures Exec(STOPPING, [Run(2, Ok), Run(2, Ok)]) == Some(STOP_RETURNED)
  {
    var r := Exec(STOPPING, [Run(2, Ok), Run(2, Ok)]).value;
    assert r.threads == STOP_RETURNED.threads && r.procs == STOP_RETURNED.procs;
  }

  /** The design notes say that `stopCh` prevents recovery after an intentional Stop.  It does not:
      here Stop has returned, no call is in flight or made later, and the server restarts. */
  lemma StopDoesNotPreventRecovery() returns (history: seq<Step>, run: seq<Step>)
    ensures Exec(INIT, history) == Some(STOP_RETURNED)
    ensures Unattended(run) && BootsMore(STOP_RETURNED, run)
  {
    var a := [Die(0), Run(1, Ok), Run(1, Ok)];
    var b := [NewStop, Run(2, Ok), Run(2, Ok)];
    var c := [Run(2, Ok), Run(2, Ok)];
    history := START_RUN + a + b + c;
    assert Exec(INIT, history) == Some(STOP_RETURNED) by {
      StartSucceeds();
      ProcessDies();
      StopBegins();
      StopReturns();
      ExecConcat(INIT, START_RUN, a);
      ExecConcat(INIT, START_RUN + a, b);
      ExecConcat(INIT, START_RUN + a + b, c);
    }
    RunKeepsInv(INIT, history);
    run := PendingCanBoot(STOP_RETURNED, 1);
  }
}
