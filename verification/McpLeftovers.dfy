/**
 What Stop leaves behind.  Once the server has come to rest after Stop nobody watches its process any more, and
 the process has been told to stop unless the last adoption came after everyone had read `s.pm` to stop it.
 */
module McpLeftovers {
  import opened Common
  import opened McpLifecycle
  import opened McpShutdown
  import opened McpOrphans

  /** The step assigns a new process to `s.pm`. */
  predicate Adopts(s: State, st: Step) {
    st.Run? && st.t < |s.threads| && s.threads[st.t].BootStarted? && st.choice.Ok?
  }

  /** The step reads `s.pm` in order to stop that process. */
  predicate Marks(s: State, st: Step) {
    st.Run? && st.t < |s.threads| && (s.threads[st.t].RecoverMark? || s.threads[st.t].StopMark?)
  }

  ghost predicate AdoptsAt(run: seq<Step>, k: nat)
    requires k < |run|
  {
    Exec(INIT, run[..k]).Some? && Adopts(Exec(INIT, run[..k]).value, run[k])
  }

  ghost predicate MarksAt(run: seq<Step>, k: nat)
    requires k < |run|
  {
    Exec(INIT, run[..k]).Some? && Marks(Exec(INIT, run[..k]).value, run[k])
  }

  /** Among the first `n` steps, an adoption after which neither Stop nor a recovery reads `s.pm`. */
  ghost predicate AdoptsLast(run: seq<Step>, n: nat)
    requires n <= |run|
  {
    exists k :: 0 <= k < n && AdoptsAt(run, k) && forall j :: k < j < n ==> !MarksAt(run, j)
  }

  lemma AdoptsLastStep(run: seq<Step>, n: nat)
    requires n < |run|
    ensures AdoptsLast(run, n + 1) <==> AdoptsAt(run, n) || (AdoptsLast(run, n) && !MarksAt(run, n))
  {
    if AdoptsLast(run, n) && !MarksAt(run, n) {
      var k :| 0 <= k < n && AdoptsAt(run, k) && forall j :: k < j < n ==> !MarksAt(run, j);
      assert AdoptsAt(run, k) && forall j :: k < j < n + 1 ==> !MarksAt(run, j);
    }
    if AdoptsLast(run, n + 1) && !AdoptsAt(run, n) {
      var k :| 0 <= k < n + 1 && AdoptsAt(run, k) && forall j :: k < j < n + 1 ==> !MarksAt(run, j);
      assert k < n && forall j :: k < j < n ==> !MarksAt(run, j);
    }
  }

  // ---------------------------------------------------------------------------------------------
  // Who is about to stop what
  // ---------------------------------------------------------------------------------------------

  /** The process a goroutine is about to stop. */
  function Target(pc: Pc): Option<nat> {
    match pc
    case RecoverStop(q) => q
    case StopKill(q) => q
    case _ => None
  }

  /** The server's process has not been told to stop and nobody is about to. */
  ghost predicate Loose(s: State) {
    && s.f.pm.Some? && s.f.pm.value < |s.procs| && !s.procs[s.f.pm.value].stopped
    && forall t :: 0 <= t < |s.threads| ==> Target(s.threads[t]) != s.f.pm
  }

  predicate IsAdopted(p: Option<nat>, procs: seq<Proc>) {
    p.Some? ==> p.value < |procs| && procs[p.value].started && procs[p.value].adoptions >= 1
  }

  /** A process that is started and not yet adopted has not been told to stop. */
  predicate IsFresh(pc: Pc, procs: seq<Proc>) {
    pc.BootStarted? ==>
      pc.p < |procs| && procs[pc.p].started && !procs[pc.p].stopped && procs[pc.p].adoptions == 0
  }

  ghost predicate AimInv(s: State) {
    && IsAdopted(s.f.pm, s.procs)
    && (forall t :: 0 <= t < |s.threads| ==> IsAdopted(Target(s.threads[t]), s.procs))
    && (forall t :: 0 <= t < |s.threads| ==> IsFresh(s.threads[t], s.procs))
  }

  lemma ActTargets(pc: Pc, t: nat, f: Fields, procs: seq<Proc>, c: Choice)
    requires Act(pc, t, f, procs, c).Some?
    ensures var e := Act(pc, t, f, procs, c).value;
            && Target(e.pc) == (if pc.RecoverMark? || pc.StopMark? then f.pm else None)
            && (e.spawn.Some? ==> Target(e.spawn.value) == None && !e.spawn.value.BootStarted?)
            && (e.edit.Stopped? ==> e.edit.q == Target(pc) || (pc.BootStarted? && e.edit.q == Some(pc.p)))
            && (Target(pc).Some? ==> e.edit == Stopped(Target(pc)))
  {
  }

  /** How an edit changes one process. */
  lemma EditAt(procs: seq<Proc>, e: Edit, t: nat, n: nat, p: nat)
    requires p < |procs|
    ensures var procs' := Apply(procs, e, t, n);
            && p < |procs'| && procs'[p].started == procs[p].started
            && procs'[p].adoptions == procs[p].adoptions + (if e == Adopted(p) then 1 else 0)
            && (procs'[p].stopped <==> procs[p].stopped || e == Stopped(Some(p)))
  {
  }

  lemma StepKeepsAdopted(s: State, t: nat, e: Effect, p: Option<nat>)
    requires t < |s.threads| && IsAdopted(p, s.procs)
    ensures IsAdopted(p, Perform(s, t, e).procs)
  {
    if p.Some? {
      EditAt(s.procs, e.edit, t, |s.threads|, p.value);
    }
  }

  /** Bootstraps hold the lock. */
  lemma OneBoots(s: State, t: nat, u: nat)
    requires LockInv(s) && t < |s.threads| && u < |s.threads| && t != u
    ensures !(s.threads[t].BootStarted? && s.threads[u].BootStarted?)
  {
  }

  lemma StepKeepsFresh(s: State, t: nat, c: Choice, e: Effect, u: nat)
    requires Inv(s) && AimInv(s) && t < |s.threads| && u < |s.threads| && u != t
    requires Act(s.threads[t], t, s.f, s.procs, c) == Some(e)
    ensures IsFresh(s.threads[u], Perform(s, t, e).procs)
  {
    var pc := s.threads[u];
    assert IsFresh(pc, s.procs);
    if pc.BootStarted? {
      assert IsAdopted(Target(s.threads[t]), s.procs);
      ActTargets(s.threads[t], t, s.f, s.procs, c);
      ActAdopts(s.threads[t], t, s.f, s.procs, c);
      EditAt(s.procs, e.edit, t, |s.threads|, pc.p);
      OneBoots(s, t, u);
    }
  }

  lemma ThreadStepKeepsAimInv(s: State, t: nat, c: Choice, e: Effect)
    requires Inv(s) && AimInv(s) && t < |s.threads| && Act(s.threads[t], t, s.f, s.procs, c) == Some(e)
    ensures AimInv(Perform(s, t, e))
  {
    var s' := Perform(s, t, e);
    assert IsFresh(s.threads[t], s.procs);
    ActTargets(s.threads[t], t, s.f, s.procs, c);
    ActAdopts(s.threads[t], t, s.f, s.procs, c);
    StepKeepsAdopted(s, t, e, s.f.pm);
    if e.edit.Adopted? {
      EditAt(s.procs, e.edit, t, |s.threads|, e.edit.p);
    }
    forall u | 0 <= u < |s'.threads|
      ensures IsAdopted(Target(s'.threads[u]), s'.procs)
      ensures IsFresh(s'.threads[u], s'.procs)
    {
      if u < |s.threads| && u != t {
        assert s'.threads[u] == s.threads[u];
        StepKeepsAdopted(s, t, e, Target(s.threads[u]));
        StepKeepsFresh(s, t, c, e, u);
      }
    }
  }

  lemma StepKeepsAimInv(s: State, st: Step, s': State)
    requires Inv(s) && AimInv(s) && Next(s, st) == Some(s')
    ensures AimInv(s')
  {
    if st.Run? {
      ThreadStepKeepsAimInv(s, st.t, st.choice, Act(s.threads[st.t], st.t, s.f, s.procs, st.choice).value);
    } else {
      OutsideStepKeepsAimInv(s, st, s');
    }
  }

  lemma OutsideStepKeepsAimInv(s: State, st: Step, s': State)
    requires AimInv(s) && !st.Run? && Next(s, st) == Some(s')
    ensures AimInv(s')
  {
    forall u | 0 <= u < |s'.threads|
      ensures IsAdopted(Target(s'.threads[u]), s'.procs)
      ensures IsFresh(s'.threads[u], s'.procs)
    {
      if u < |s.threads| {
        assert s'.threads[u] == s.threads[u];
        assert IsAdopted(Target(s.threads[u]), s.procs) && IsFresh(s.threads[u], s.procs);
      }
    }
  }

  // ---------------------------------------------------------------------------------------------
  // When the process is loose
  // ---------------------------------------------------------------------------------------------

  lemma AdoptionIsLoose(s: State, t: nat, c: Choice, e: Effect)
    requires AimInv(s) && t < |s.threads| && Act(s.threads[t], t, s.f, s.procs, c) == Some(e)
    requires Adopts(s, Run(t, c))
    ensures Loose(Perform(s, t, e))
  {
    var s' := Perform(s, t, e);
    var p := s.threads[t].p;
    assert IsFresh(s.threads[t], s.procs);
    EditAt(s.procs, e.edit, t, |s.threads|, p);
    forall u | 0 <= u < |s'.threads|
      ensures Target(s'.threads[u]) != Some(p)
    {
      if u < |s.threads| && u != t {
        assert s'.threads[u] == s.threads[u] && IsAdopted(Target(s.threads[u]), s.procs);
      }
    }
  }

  lemma MarkedIsNotLoose(s: State, t: nat, c: Choice, e: Effect)
    requires t < |s.threads| && Act(s.threads[t], t, s.f, s.procs, c) == Some(e)
    requires Marks(s, Run(t, c))
    ensures !Loose(Perform(s, t, e))
  {
    var s' := Perform(s, t, e);
    assert s'.threads[t] == e.pc && Target(e.pc) == s'.f.pm;
  }

  /** Any other step leaves a loose process loose. */
  lemma StaysLoose(s: State, t: nat, c: Choice, e: Effect)
    requires AimInv(s) && t < |s.threads| && Act(s.threads[t], t, s.f, s.procs, c) == Some(e)
    requires !Adopts(s, Run(t, c)) && !Marks(s, Run(t, c)) && Loose(s)
    ensures Loose(Perform(s, t, e))
  {
    var s' := Perform(s, t, e);
    ActTargets(s.threads[t], t, s.f, s.procs, c);
    ActAdopts(s.threads[t], t, s.f, s.procs, c);
    assert IsFresh(s.threads[t], s.procs) && Target(s.threads[t]) != s.f.pm;
    EditAt(s.procs, e.edit, t, |s.threads|, s.f.pm.value);
    forall u | 0 <= u < |s'.threads|
      ensures Target(s'.threads[u]) != s'.f.pm
    {
      assert u < |s.threads| && u != t ==> s'.threads[u] == s.threads[u];
    }
  }

  /** And one that is not loose does not become so. */
  lemma StaysNotLoose(s: State, t: nat, c: Choice, e: Effect)
    requires AimInv(s) && t < |s.threads| && Act(s.threads[t], t, s.f, s.procs, c) == Some(e)
    requires !Adopts(s, Run(t, c)) && !Marks(s, Run(t, c)) && !Loose(s)
    ensures !Loose(Perform(s, t, e))
  {
    var s' := Perform(s, t, e);
    ActTargets(s.threads[t], t, s.f, s.procs, c);
    ActAdopts(s.threads[t], t, s.f, s.procs, c);
    assert s'.f.pm == s.f.pm;
    if s.f.pm.Some? {
      EditAt(s.procs, e.edit, t, |s.threads|, s.f.pm.value);
      if !s.procs[s.f.pm.value].stopped {
        var u :| 0 <= u < |s.threads| && Target(s.threads[u]) == s.f.pm;
        assert u != t ==> s'.threads[u] == s.threads[u];
      }
    }
  }

  lemma LooseStep(s: State, st: Step, s': State)
    requires Inv(s) && AimInv(s) && Next(s, st) == Some(s')
    ensures Loose(s') <==> Adopts(s, st) || (Loose(s) && !Marks(s, st))
  {
    if st.Run? {
      var e := Act(s.threads[st.t], st.t, s.f, s.procs, st.choice).value;
      if Adopts(s, st) {
        AdoptionIsLoose(s, st.t, st.choice, e);
      } else if Marks(s, st) {
        MarkedIsNotLoose(s, st.t, st.choice, e);
      } else if Loose(s) {
        StaysLoose(s, st.t, st.choice, e);
      } else {
        StaysNotLoose(s, st.t, st.choice, e);
      }
    } else {
      OutsideStepKeepsLoose(s, st, s');
    }
  }

  lemma OutsideStepKeepsLoose(s: State, st: Step, s': State)
    requires !st.Run? && Next(s, st) == Some(s')
    ensures Loose(s') <==> Loose(s)
  {
    assert forall u :: 0 <= u < |s.threads| ==> s'.threads[u] == s.threads[u];
    assert forall u :: |s.threads| <= u < |s'.threads| ==> Target(s'.threads[u]) == None;
  }

  lemma {:induction false} LooseIffAdoptsLast(run: seq<Step>, n: nat)
    requires n <= |run| && Exec(INIT, run[..n]).Some?
    ensures var s := Exec(INIT, run[..n]).value;
            Inv(s) && AimInv(s) && (Loose(s) <==> AdoptsLast(run, n))
  {
    if n > 0 {
      var s := Exec(INIT, run[..n]).value;
      PrefixRuns(run, n - 1);
      var before := Exec(INIT, run[..n - 1]).value;
      LooseIffAdoptsLast(run, n - 1);
      StepKeepsInv(before, run[n - 1], s);
      StepKeepsAimInv(before, run[n - 1], s);
      LooseStep(before, run[n - 1], s);
      AdoptsLastStep(run, n - 1);
    }
  }

  // ---------------------------------------------------------------------------------------------
  // At rest
  // ---------------------------------------------------------------------------------------------

  /** Started and never told to stop. */
  predicate LeftRunning(s: State, p: nat) { p < |s.procs| && s.procs[p].started && !s.procs[p].stopped }

  /** At rest after Stop every watchdog is gone, and the server's process has never been told to stop exactly
      when it was adopted after the last time Stop or a recovery read `s.pm`. */
  lemma LeftRunningIff(history: seq<Step>, s: State)
    requires Exec(INIT, history) == Some(s) && s.f.stopClosed && AtRest(s)
    ensures forall t :: 0 <= t < |s.threads| ==> s.threads[t] == Done
    ensures (s.f.pm.Some? && LeftRunning(s, s.f.pm.value)) <==> AdoptsLast(history, |history|)
  {
    RestIsClean(history, s);
    assert history[..|history|] == history;
    LooseIffAdoptsLast(history, |history|);
  }

  lemma OnlyPmIsLeft(s: State)
    requires NoOrphans(s) && s.f.mu.None?
    ensures forall p: nat :: LeftRunning(s, p) ==> s.f.pm == Some(p)
  {
  }

  /** With one Start there is no other process to leave running. */
  lemma AnyLeftRunningIff(history: seq<Step>, s: State)
    requires Exec(INIT, history) == Some(s) && s.f.stopClosed && AtRest(s) && Starts(history) <= 1
    ensures (exists p: nat :: LeftRunning(s, p)) <==> AdoptsLast(history, |history|)
  {
    RestIsClean(history, s);
    OneStartLeavesNoOrphans(history);
    OnlyPmIsLeft(s);
    LeftRunningIff(history, s);
  }

  // ---------------------------------------------------------------------------------------------
  // A run that leaves a process
  // ---------------------------------------------------------------------------------------------

  /** Stop has returned and the recovery it came too late for goes on. */
  const SLEEPING := State([Done, RecoverSleep, Done], STOP_RETURNED.f.(recovering := true), STOP_RETURNED.procs)

  const ADOPTING := State([Done, AssignTools(ByRecovery, 1), Done],
                          Fields(Some(1), Some(1), Some(1), Some(0), false, true, true),
                          STOP_RETURNED.procs + [Proc(1, true, false, false, 1, [])])

  const WATCHED := State([Done, RecoverRelease, Done, WatchSelect(1)],
                         Fields(None, Some(1), Some(1), Some(1), true, true, true),
                         STOP_RETURNED.procs + [Proc(1, true, false, false, 1, [3])])

  const ABANDONED := State([Done, Done, Done, Done], Fields(None, Some(1), Some(1), Some(1), true, false, true),
                           WATCHED.procs)

  lemma RecoveryMarks(s: State)
    requires s == State([Done, RecoverMark, Done], STOP_RETURNED.f.(mu := Some(1), recovering := true),
                        STOP_RETURNED.procs)
    ensures Exec(STOP_RETURNED, Twice(1)) == Some(s)
  {
    var r := Exec(STOP_RETURNED, Twice(1)).value;
    assert r.threads == s.threads && r.procs == s.procs;
  }

  lemma RecoveryStops(s: State)
    requires s == State([Done, RecoverMark, Done], STOP_RETURNED.f.(mu := Some(1), recovering := true),
                        STOP_RETURNED.procs)
    ensures Exec(s, Twice(1)) == Some(SLEEPING)
  {
    var r := Exec(s, Twice(1)).value;
    assert r.threads == SLEEPING.threads && r.procs == SLEEPING.procs;
  }

  lemma RecoverySleeps()
    ensures Exec(STOP_RETURNED, FourTimes(1)) == Some(SLEEPING)
  {
    var s := State([Done, RecoverMark, Done], STOP_RETURNED.f.(mu := Some(1), recovering := true),
                   STOP_RETURNED.procs);
    RecoveryMarks(s);
    RecoveryStops(s);
    ExecConcat(STOP_RETURNED, Twice(1), Twice(1));
  }

  lemma RecoveryAdopts()
    ensures Exec(SLEEPING, FourTimes(1)) == Some(ADOPTING)
  {
    var r := Exec(SLEEPING, FourTimes(1)).value;
    assert r.threads == ADOPTING.threads && r.procs == ADOPTING.procs;
  }

  lemma RecoveryLaunches()
    ensures Exec(ADOPTING, FourTimes(1)) == Some(WATCHED)
  {
    var r := Exec(ADOPTING, FourTimes(1)).value;
    assert r.procs[1].watchers == [3];
    assert r.threads == WATCHED.threads && r.procs == WATCHED.procs;
  }

  /** The watchdog sees the closed channel and leaves. */
  lemma WatchdogLeaves()
    ensures Exec(WATCHED, [Run(1, Ok), Run(3, Err)]) == Some(ABANDONED)
  {
    var r := Exec(WATCHED, [Run(1, Ok), Run(3, Err)]).value;
    assert r.threads == ABANDONED.threads && r.procs == ABANDONED.procs;
  }

  lemma RecoveryFinishes(later: seq<Step>)
    requires later == FourTimes(1) + FourTimes(1) + FourTimes(1) + [Run(1, Ok), Run(3, Err)]
    ensures Exec(STOP_RETURNED, later) == Some(ABANDONED)
  {
    RecoverySleeps();
    RecoveryAdopts();
    RecoveryLaunches();
    WatchdogLeaves();
    ExecConcat(STOP_RETURNED, FourTimes(1), FourTimes(1));
    ExecConcat(STOP_RETURNED, FourTimes(1) + FourTimes(1), FourTimes(1));
    ExecConcat(STOP_RETURNED, FourTimes(1) + FourTimes(1) + FourTimes(1), [Run(1, Ok), Run(3, Err)]);
  }

  lemma AbandonedIsAtRest()
    ensures AtRest(ABANDONED) && ABANDONED.f.pm == Some(1) && LeftRunning(ABANDONED, 1)
    ensures !ABANDONED.procs[1].dead
  {
  }

  /** After Stop has returned the server comes to rest with a running process that nobody watches or stops. */
  lemma StopLeavesAProcess() returns (history: seq<Step>, later: seq<Step>)
    ensures Exec(INIT, history) == Some(STOP_RETURNED) && Unattended(later)
    ensures Exec(INIT, history + later) == Some(ABANDONED) && AtRest(ABANDONED)
    ensures ABANDONED.f.pm == Some(1) && LeftRunning(ABANDONED, 1) && !ABANDONED.procs[1].dead
  {
    var run;
    history, run := StopDoesNotPreventRecovery();
    later := FourTimes(1) + FourTimes(1) + FourTimes(1) + [Run(1, Ok), Run(3, Err)];
    RecoveryFinishes(later);
    ExecConcat(INIT, history, later);
    AbandonedIsAtRest();
  }
}
