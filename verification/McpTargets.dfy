/**
 Which process a recovery stops.  A recovery is launched for a process that died or for a client that failed,
 but it stops whatever `s.pm` holds when it gets the lock.  On a server with one Start and no failed call that is
 the dead process; one failed call is enough to have a late watchdog stop the healthy process that replaced its own.
 */
module McpTargets {
  import opened Common
  import opened McpLifecycle
  import opened McpOrphans
  import opened McpCalls

  /** A tool call gets an error from its client. */
  predicate Fails(s: State, st: Step) {
    st.Run? && st.t < |s.threads| && s.threads[st.t].CallAwait? && s.threads[st.t].via.Some? && !st.choice.Ok?
  }

  /** How many tool calls fail in a run. */
  function Failures(s: State, run: seq<Step>): nat
    decreases |run|
  {
    if run == [] then 0
    else (if Fails(s, run[0]) then 1 else 0)
         + match Next(s, run[0])
           case None => 0
           case Some(s1) => Failures(s1, run[1..])
  }

  /** Recoveries stop processes that have exited. */
  ghost predicate StopsOnlyTheDead(s: State) {
    forall t :: 0 <= t < |s.threads| && s.threads[t].RecoverStop? && s.threads[t].target.Some? ==>
      var p := s.threads[t].target.value; p < |s.procs| && s.procs[p].dead
  }

  // ---------------------------------------------------------------------------------------------
  // One Start, no failed call: the duty to look after the process passes from goroutine to goroutine
  // ---------------------------------------------------------------------------------------------

  /** Positions that look after the server's process, from Start to the watchdog to the recovery. */
  predicate OnDuty(pc: Pc) {
    || pc.StartEntry? || pc.Boot? || pc.BootStarted? || pc.AssignClient? || pc.AssignTools? || pc.AssignRunning?
    || pc.BootDone? || pc.BootFailed? || pc.RecoverEntry? || pc.RecoverGrab? || pc.RecoverMark? || pc.RecoverStop?
    || pc.RecoverSleep? || pc.RecoverLaunch? || pc.WatchSelect? || pc.WatchCheck?
  }

  function Duty(pc: Pc): nat { if OnDuty(pc) then 1 else 0 }

  /** A goroutine that launches, keeps or has launched a watchdog works for the process in `s.pm`. */
  predicate OwnsPm(pc: Pc, pm: Option<nat>) {
    && (pc.AssignClient? || pc.AssignTools? || pc.AssignRunning? || pc.BootDone? ==> pm == Some(pc.p))
    && (pc.RecoverLaunch? ==> pm == pc.next)
    && (pc.WatchSelect? || pc.WatchCheck? ==> pm == Some(pc.p))
    && (pc.RecoverStop? ==> pm == pc.target)
  }

  predicate DeadPm(pm: Option<nat>, procs: seq<Proc>) {
    pm.Some? && pm.value < |procs| && procs[pm.value].dead
  }

  /** From the moment its watchdog has seen it die until it has been stopped. */
  predicate Mourns(pc: Pc) {
    pc.WatchCheck? || pc.RecoverEntry? || pc.RecoverGrab? || pc.RecoverMark? || pc.RecoverStop?
  }

  /** What a goroutine knows of `s.pm` when no tool call fails. */
  predicate DutyOk(pc: Pc, pm: Option<nat>, procs: seq<Proc>) {
    OwnsPm(pc, pm) && (Mourns(pc) ==> DeadPm(pm, procs))
  }

  ghost predicate AllOk(s: State) {
    forall t :: 0 <= t < |s.threads| ==> DutyOk(s.threads[t], s.f.pm, s.procs)
  }

  ghost predicate DutyInv(s: State, starts: nat) { Sum(s.threads, Duty) <= starts && AllOk(s) }

  /** The choice makes a call at this position fail. */
  predicate FailsAt(pc: Pc, c: Choice) { pc.CallAwait? && pc.via.Some? && !c.Ok? }

  lemma ActPassesDuty(pc: Pc, t: nat, f: Fields, procs: seq<Proc>, c: Choice)
    requires Act(pc, t, f, procs, c).Some? && !FailsAt(pc, c) && DutyOk(pc, f.pm, procs)
    ensures var e := Act(pc, t, f, procs, c).value;
            && Duty(e.pc) + (if e.spawn.Some? then Duty(e.spawn.value) else 0) <= Duty(pc)
            && (Duty(pc) == 0 ==> e.f.pm == f.pm && e.spawn.None?)
  {
  }

  lemma EditKeepsDead(procs: seq<Proc>, e: Edit, t: nat, n: nat)
    ensures |procs| <= |Apply(procs, e, t, n)|
    ensures forall p :: 0 <= p < |procs| ==> Apply(procs, e, t, n)[p].dead == procs[p].dead
  {
  }

  lemma ActKeepsOwn(pc: Pc, t: nat, f: Fields, procs: seq<Proc>, c: Choice)
    requires Act(pc, t, f, procs, c).Some? && OwnsPm(pc, f.pm)
    ensures OwnsPm(Act(pc, t, f, procs, c).value.pc, Act(pc, t, f, procs, c).value.f.pm)
  {
  }

  lemma ActSpawnsOwn(pc: Pc, t: nat, f: Fields, procs: seq<Proc>, c: Choice)
    requires Act(pc, t, f, procs, c).Some? && OwnsPm(pc, f.pm)
    ensures var e := Act(pc, t, f, procs, c).value; e.spawn.Some? ==> OwnsPm(e.spawn.value, e.f.pm)
  {
  }

  lemma ActKeepsMourning(pc: Pc, t: nat, f: Fields, procs: seq<Proc>, c: Choice)
    requires Act(pc, t, f, procs, c).Some? && !FailsAt(pc, c) && OwnsPm(pc, f.pm)
    requires Mourns(pc) ==> DeadPm(f.pm, procs)
    ensures var e := Act(pc, t, f, procs, c).value;
            (Mourns(e.pc) ==> DeadPm(e.f.pm, procs)) && (e.spawn.Some? ==> !Mourns(e.spawn.value))
  {
  }

  lemma ActKeepsDuty(pc: Pc, t: nat, f: Fields, procs: seq<Proc>, c: Choice)
    requires Act(pc, t, f, procs, c).Some? && !FailsAt(pc, c) && DutyOk(pc, f.pm, procs)
    ensures var e := Act(pc, t, f, procs, c).value;
            DutyOk(e.pc, e.f.pm, procs) && (e.spawn.Some? ==> DutyOk(e.spawn.value, e.f.pm, procs))
  {
    ActKeepsOwn(pc, t, f, procs, c);
    ActSpawnsOwn(pc, t, f, procs, c);
    ActKeepsMourning(pc, t, f, procs, c);
  }

  lemma StaysOk(pc: Pc, pm: Option<nat>, procs: seq<Proc>, pm': Option<nat>, procs': seq<Proc>)
    requires DutyOk(pc, pm, procs) && (pm' == pm || !OnDuty(pc))
    requires |procs| <= |procs'| && forall p :: 0 <= p < |procs| && procs[p].dead ==> procs'[p].dead
    ensures DutyOk(pc, pm', procs')
  {
  }

  lemma ThreadStepKeepsDuty(s: State, starts: nat, t: nat, c: Choice, e: Effect)
    requires DutyInv(s, starts) && starts <= 1 && t < |s.threads| && !FailsAt(s.threads[t], c)
    requires Act(s.threads[t], t, s.f, s.procs, c) == Some(e)
    ensures DutyInv(Perform(s, t, e), starts)
  {
    var s' := Perform(s, t, e);
    ActPassesDuty(s.threads[t], t, s.f, s.procs, c);
    EditKeepsDead(s.procs, e.edit, t, |s.threads|);
    ActKeepsDuty(s.threads[t], t, s.f, s.procs, c);
    SumPerform(s, t, e, Duty);
    forall u | 0 <= u < |s'.threads|
      ensures DutyOk(s'.threads[u], s'.f.pm, s'.procs)
    {
      if u < |s.threads| && u != t {
        OneOnDuty(s, starts, t, u);
        assert s'.threads[u] == s.threads[u];
        StaysOk(s.threads[u], s.f.pm, s.procs, s'.f.pm, s'.procs);
      } else {
        StaysOk(s'.threads[u], s'.f.pm, s.procs, s'.f.pm, s'.procs);
      }
    }
  }

  lemma OneOnDuty(s: State, starts: nat, t: nat, u: nat)
    requires DutyInv(s, starts) && starts <= 1 && t < |s.threads| && u < |s.threads| && u != t
    ensures !(OnDuty(s.threads[t]) && OnDuty(s.threads[u]))
  {
    if t < u {
      SumAtLeastTwo(s.threads, t, u, Duty);
    } else {
      SumAtLeastTwo(s.threads, u, t, Duty);
    }
  }

  lemma NewCallerKeepsDuty(s: State, starts: nat, pc: Pc, s': State, starts': nat)
    requires DutyInv(s, starts) && (pc == StartEntry || pc == StopEntry || pc == CallEntry)
    requires s' == Spawn(s, pc) && starts' == starts + Duty(pc)
    ensures DutyInv(s', starts')
  {
    SumAppend(s.threads, pc, Duty);
    forall u | 0 <= u < |s'.threads|
      ensures DutyOk(s'.threads[u], s'.f.pm, s'.procs)
    {
      assert u < |s.threads| ==> s'.threads[u] == s.threads[u];
    }
  }

  lemma DieKeepsDuty(s: State, starts: nat, p: nat, s': State)
    requires DutyInv(s, starts) && Next(s, Die(p)) == Some(s')
    ensures DutyInv(s', starts)
  {
    forall u | 0 <= u < |s.threads|
      ensures DutyOk(s'.threads[u], s'.f.pm, s'.procs)
    {
      StaysOk(s.threads[u], s.f.pm, s.procs, s'.f.pm, s'.procs);
    }
  }

  lemma StepKeepsDuty(s: State, starts: nat, st: Step, s': State, starts': nat)
    requires DutyInv(s, starts) && starts <= 1 && !Fails(s, st) && Next(s, st) == Some(s')
    requires starts' == starts + if st.NewStart? then 1 else 0
    ensures DutyInv(s', starts')
  {
    match st {
      case NewStart => NewCallerKeepsDuty(s, starts, StartEntry, s', starts');
      case NewStop => NewCallerKeepsDuty(s, starts, StopEntry, s', starts');
      case NewCall => NewCallerKeepsDuty(s, starts, CallEntry, s', starts');
      case Die(p) => DieKeepsDuty(s, starts, p, s');
      case Run(t, c) =>
        var e := Act(s.threads[t], t, s.f, s.procs, c).value;
        ThreadStepKeepsDuty(s, starts, t, c, e);
        assert s' == Perform(s, t, e);
    }
  }

  lemma {:induction false} RunKeepsDuty(s: State, starts: nat, run: seq<Step>)
    requires DutyInv(s, starts) && starts + Starts(run) <= 1 && Failures(s, run) == 0 && Exec(s, run).Some?
    ensures DutyInv(Exec(s, run).value, starts + Starts(run))
    decreases |run|
  {
    if run != [] {
      var s1 := Next(s, run[0]).value;
      var starts1 := starts + if run[0].NewStart? then 1 else 0;
      StepKeepsDuty(s, starts, run[0], s1, starts1);
      RunKeepsDuty(s1, starts1, run[1..]);
    }
  }

  /** With at most one Start and no failed call, a recovery stops a process only once it is dead. */
  lemma QuietServerStopsOnlyTheDead(run: seq<Step>)
    requires Exec(INIT, run).Some? && Starts(run) <= 1 && Failures(INIT, run) == 0
    ensures StopsOnlyTheDead(Exec(INIT, run).value)
  {
    RunKeepsDuty(INIT, 0, run);
  }

  /** Without a Start there is nothing to recover. */
  lemma NoStartNoRecovery(run: seq<Step>)
    requires Exec(INIT, run).Some? && Starts(run) == 0
    ensures StopsOnlyTheDead(Exec(INIT, run).value)
  {
    RunKeepsOrphanInv(INIT, 0, run);
    var s := Exec(INIT, run).value;
    assert forall t :: 0 <= t < |s.threads| && s.threads[t].RecoverStop? ==> NeedsPm(s.threads[t]);
  }

  // ---------------------------------------------------------------------------------------------
  // One Start and one failed call
  // ---------------------------------------------------------------------------------------------

  lemma {:induction false} FailuresConcat(s: State, a: seq<Step>, b: seq<Step>)
    requires Exec(s, a).Some?
    ensures Failures(s, a + b) == Failures(s, a) + Failures(Exec(s, a).value, b)
    decreases |a|
  {
    if a == [] {
      assert a + b == b;
    } else {
      assert (a + b)[1..] == a[1..] + b;
      FailuresConcat(Next(s, a[0]).value, a[1..], b);
    }
  }

  /** Where everything succeeds no call fails. */
  lemma {:induction false} NoFailures(s: State, run: seq<Step>)
    requires forall i :: 0 <= i < |run| && run[i].Run? ==> run[i].choice.Ok?
    ensures Failures(s, run) == 0
    decreases |run|
  {
    if run != [] && Next(s, run[0]).Some? {
      NoFailures(Next(s, run[0]).value, run[1..]);
    }
  }

  const CALLING := State([Done, WatchSelect(0), CallAwait(Some(0))], STARTED.f, STARTED.procs)

  const CALL_BEGINS := [NewCall, Run(2, Ok)] + Twice(2)

  lemma CallBegins()
    ensures Exec(STARTED, CALL_BEGINS) == Some(CALLING)
  {
    var s := State([Done, WatchSelect(0), CallLock], STARTED.f, STARTED.procs);
    assert Exec(STARTED, [NewCall, Run(2, Ok)]) == Some(s) by {
      var r := Exec(STARTED, [NewCall, Run(2, Ok)]).value;
      assert r.threads == s.threads;
    }
    CallReadsClient(s);
    ExecConcat(STARTED, [NewCall, Run(2, Ok)], Twice(2));
  }

  lemma CallReadsClient(s: State)
    requires s == State([Done, WatchSelect(0), CallLock], STARTED.f, STARTED.procs)
    ensures Exec(s, Twice(2)) == Some(CALLING)
  {
    var r := Exec(s, Twice(2)).value;
    assert r.threads == CALLING.threads;
  }

  const CALL_FAILED := State([Done, WatchSelect(0), Done, RecoverEntry], STARTED.f, STARTED.procs)

  lemma CallFails()
    ensures Exec(CALLING, [Run(2, Err)]) == Some(CALL_FAILED)
  {
    var r := Exec(CALLING, [Run(2, Err)]).value;
    assert r.threads == CALL_FAILED.threads;
  }

  /** The call has failed and the process has died: both have a recovery launched. */
  const ALARMED := State([Done, RecoverEntry, Done, RecoverEntry], STARTED.f, [Proc(0, true, false, true, 1, [1])])

  const PROCESS_DIES := [Die(0), Run(1, Ok), Run(1, Ok)]

  lemma ProcessDies()
    ensures Exec(CALL_FAILED, PROCESS_DIES) == Some(ALARMED)
  {
    var r := Exec(CALL_FAILED, PROCESS_DIES).value;
    assert r.threads == ALARMED.threads && r.procs == ALARMED.procs;
  }

  /** The call's recovery has stopped the dead process. */
  const CLEARED := State([Done, RecoverEntry, Done, RecoverSleep],
                         STARTED.f.(running := false, recovering := true), [Proc(0, true, true, true, 1, [1])])

  lemma RecoveryMarks(s: State)
    requires s == State([Done, RecoverEntry, Done, RecoverMark],
                        STARTED.f.(mu := Some(3), recovering := true), ALARMED.procs)
    ensures Exec(ALARMED, Twice(3)) == Some(s)
  {
    var r := Exec(ALARMED, Twice(3)).value;
    assert r.threads == s.threads && r.procs == s.procs;
  }

  lemma RecoveryStops(s: State)
    requires s == State([Done, RecoverEntry, Done, RecoverMark],
                        STARTED.f.(mu := Some(3), recovering := true), ALARMED.procs)
    ensures Exec(s, Twice(3)) == Some(CLEARED)
  {
    var r := Exec(s, Twice(3)).value;
    assert r.threads == CLEARED.threads && r.procs == CLEARED.procs;
  }

  lemma DeadIsStopped()
    ensures Exec(ALARMED, FourTimes(3)) == Some(CLEARED)
  {
    var s := State([Done, RecoverEntry, Done, RecoverMark],
                   STARTED.f.(mu := Some(3), recovering := true), ALARMED.procs);
    RecoveryMarks(s);
    RecoveryStops(s);
    ExecConcat(ALARMED, Twice(3), Twice(3));
  }

  const REPLACING := State([Done, RecoverEntry, Done, AssignTools(ByRecovery, 1)],
                           Fields(Some(3), Some(1), Some(1), Some(0), false, true, false),
                           [Proc(0, true, true, true, 1, [1]), Proc(3, true, false, false, 1, [])])

  lemma SuccessorStarts()
    ensures Exec(CLEARED, FourTimes(3)) == Some(REPLACING)
  {
    var r := Exec(CLEARED, FourTimes(3)).value;
    assert r.threads == REPLACING.threads && r.procs == REPLACING.procs;
  }

  /** The new process runs and has its watchdog; the old one's watchdog is still at its recovery. */
  const REPLACED := State([Done, RecoverEntry, Done, RecoverRelease, WatchSelect(1)],
                          Fields(None, Some(1), Some(1), Some(1), true, true, false),
                          [Proc(0, true, true, true, 1, [1]), Proc(3, true, false, false, 1, [4])])

  lemma SuccessorRuns()
    ensures Exec(REPLACING, FourTimes(3)) == Some(REPLACED)
  {
    var r := Exec(REPLACING, FourTimes(3)).value;
    assert r.procs[1].watchers == [4];
    assert r.threads == REPLACED.threads && r.procs == REPLACED.procs;
  }

  /** The late recovery is about to stop the healthy process. */
  const MISDIRECTED := State([Done, RecoverStop(Some(1)), Done, Done, WatchSelect(1)],
                             Fields(None, Some(1), Some(1), Some(1), false, true, false), REPLACED.procs)

  const LATE_RECOVERY := [Run(3, Ok), Run(1, Ok)] + Twice(1)

  lemma LateRecoveryBegins(s: State)
    requires s == State([Done, RecoverGrab, Done, Done, WatchSelect(1)], REPLACED.f, REPLACED.procs)
    ensures Exec(REPLACED, [Run(3, Ok), Run(1, Ok)]) == Some(s)
  {
    var r := Exec(REPLACED, [Run(3, Ok), Run(1, Ok)]).value;
    assert r.threads == s.threads && r.procs == s.procs;
  }

  lemma LateRecoveryReads(s: State)
    requires s == State([Done, RecoverGrab, Done, Done, WatchSelect(1)], REPLACED.f, REPLACED.procs)
    ensures Exec(s, Twice(1)) == Some(MISDIRECTED)
  {
    var r := Exec(s, Twice(1)).value;
    assert r.threads == MISDIRECTED.threads && r.procs == MISDIRECTED.procs;
  }

  lemma LateRecoveryAims()
    ensures Exec(REPLACED, LATE_RECOVERY) == Some(MISDIRECTED)
  {
    var s := State([Done, RecoverGrab, Done, Done, WatchSelect(1)], REPLACED.f, REPLACED.procs);
    LateRecoveryBegins(s);
    LateRecoveryReads(s);
    ExecConcat(REPLACED, [Run(3, Ok), Run(1, Ok)], Twice(1));
  }

  lemma LateRecoveryRun(later: seq<Step>)
    requires later == FourTimes(3) + FourTimes(3) + FourTimes(3) + LATE_RECOVERY
    ensures Exec(ALARMED, later) == Some(MISDIRECTED)
  {
    DeadIsStopped();
    SuccessorStarts();
    SuccessorRuns();
    LateRecoveryAims();
    var once := FourTimes(3);
    ExecConcat(ALARMED, once, once);
    ExecConcat(ALARMED, once + once, once);
    ExecConcat(ALARMED, once + once + once, LATE_RECOVERY);
  }

  lemma AlarmRun(earlier: seq<Step>)
    requires earlier == START_RUN + CALL_BEGINS + ([Run(2, Err)] + PROCESS_DIES)
    ensures Exec(INIT, earlier) == Some(ALARMED) && Failures(INIT, earlier) == 1
  {
    var ends := [Run(2, Err)] + PROCESS_DIES;
    StartSucceeds();
    CallBegins();
    CallFails();
    ProcessDies();
    ExecConcat(INIT, START_RUN, CALL_BEGINS);
    ExecConcat(INIT, START_RUN + CALL_BEGINS, ends);
    ExecConcat(CALLING, [Run(2, Err)], PROCESS_DIES);
    NoFailures(INIT, START_RUN + CALL_BEGINS);
    FailuresConcat(INIT, START_RUN + CALL_BEGINS, ends);
    NoFailures(CALL_FAILED, PROCESS_DIES);
    assert Failures(CALLING, [Run(2, Err)]) == 1;
    FailuresConcat(CALLING, [Run(2, Err)], PROCESS_DIES);
  }

  lemma AlarmStarts(earlier: seq<Step>)
    requires earlier == START_RUN + CALL_BEGINS + ([Run(2, Err)] + PROCESS_DIES)
    ensures Starts(earlier) == 1
  {
    var rest := CALL_BEGINS + ([Run(2, Err)] + PROCESS_DIES);
    assert earlier == START_RUN + rest;
    StartRunStarts();
    NoStarts(rest);
    StartsConcat(START_RUN, rest);
  }

  /** Goroutine `t` is about to stop process `p`, which runs and has not been told to stop. */
  predicate IsAimedAtHealthy(s: State, t: nat, p: nat) {
    && t < |s.threads| && s.threads[t] == RecoverStop(Some(p))
    && p < |s.procs| && s.procs[p].started && !s.procs[p].dead && !s.procs[p].stopped
  }

  /** One Start and one failed call: after the only call has returned the server gets a new process, and the
      watchdog of the old one stops it although it runs and no call ever used it. */
  lemma LateWatchdogStopsSuccessor() returns (earlier: seq<Step>, later: seq<Step>)
    ensures Exec(INIT, earlier) == Some(ALARMED) && |ALARMED.procs| == 1
    ensures forall t :: 0 <= t < |ALARMED.threads| ==> !IsCall(ALARMED.threads[t])
    ensures NewCall !in later && Exec(INIT, earlier + later) == Some(MISDIRECTED)
    ensures Starts(earlier + later) == 1 && Failures(INIT, earlier + later) == 1
    ensures IsAimedAtHealthy(MISDIRECTED, 1, 1) && !StopsOnlyTheDead(MISDIRECTED)
  {
    earlier := START_RUN + CALL_BEGINS + ([Run(2, Err)] + PROCESS_DIES);
    later := FourTimes(3) + FourTimes(3) + FourTimes(3) + LATE_RECOVERY;
    AlarmRun(earlier);
    LateRecoveryRun(later);
    ExecConcat(INIT, earlier, later);
    AlarmStarts(earlier);
    LaterCounts(earlier, later);
  }

  lemma LaterCounts(earlier: seq<Step>, later: seq<Step>)
    requires Exec(INIT, earlier).Some?
    requires forall i :: 0 <= i < |later| ==> later[i].Run? && later[i].choice.Ok?
    ensures Starts(earlier + later) == Starts(earlier) && Failures(INIT, earlier + later) == Failures(INIT, earlier)
  {
    NoStarts(later);
    StartsConcat(earlier, later);
    NoFailures(Exec(INIT, earlier).value, later);
    FailuresConcat(INIT, earlier, later);
  }

  // ---------------------------------------------------------------------------------------------
  // Two Starts
  // ---------------------------------------------------------------------------------------------

  const FIRST_DIED := State([Done, RecoverEntry, Done, WatchSelect(1)], STARTED_TWICE.f,
                            [Proc(0, true, false, true, 1, [1]), Proc(2, true, false, false, 1, [3])])

  const SECOND_AIMED_AT := State([Done, RecoverStop(Some(1)), Done, WatchSelect(1)],
                                 STARTED_TWICE.f.(running := false, recovering := true), FIRST_DIED.procs)

  lemma FirstDies()
    ensures Exec(STARTED_TWICE, [Die(0), Run(1, Ok), Run(1, Ok)]) == Some(FIRST_DIED)
  {
    var r := Exec(STARTED_TWICE, [Die(0), Run(1, Ok), Run(1, Ok)]).value;
    assert r.threads == FIRST_DIED.threads && r.procs == FIRST_DIED.procs;
  }

  lemma SecondIsAimedAt()
    ensures Exec(FIRST_DIED, [Run(1, Ok), Run(1, Ok), Run(1, Ok)]) == Some(SECOND_AIMED_AT)
  {
    var r := Exec(FIRST_DIED, [Run(1, Ok), Run(1, Ok), Run(1, Ok)]).value;
    assert r.threads == SECOND_AIMED_AT.threads;
  }

  lemma TwoStartsRun(run: seq<Step>, a: seq<Step>, b: seq<Step>)
    requires Exec(INIT, START_RUN + a + b) == Some(STARTED_TWICE)
    requires run == START_RUN + a + b + [Die(0), Run(1, Ok), Run(1, Ok)] + [Run(1, Ok), Run(1, Ok), Run(1, Ok)]
    ensures Exec(INIT, run) == Some(SECOND_AIMED_AT)
  {
    var c, d := [Die(0), Run(1, Ok), Run(1, Ok)], [Run(1, Ok), Run(1, Ok), Run(1, Ok)];
    FirstDies();
    SecondIsAimedAt();
    ExecConcat(INIT, START_RUN + a + b, c);
    ExecConcat(INIT, START_RUN + a + b + c, d);
  }

  lemma TwoStartsCounts(run: seq<Step>, rest: seq<Step>)
    requires run == START_RUN + ([NewStart] + rest)
    requires forall i :: 0 <= i < |rest| ==> !rest[i].NewStart? && (rest[i].Run? ==> rest[i].choice.Ok?)
    ensures Starts(run) == 2 && Failures(INIT, run) == 0
  {
    StartRunStarts();
    NoStarts(rest);
    assert ([NewStart] + rest)[1..] == rest;
    StartsConcat(START_RUN, [NewStart] + rest);
    NoFailures(INIT, run);
  }

  /** Two Starts and no call: the first process's watchdog stops the second process. */
  lemma TwoStartsStopTheLiving() returns (run: seq<Step>)
    ensures Exec(INIT, run) == Some(SECOND_AIMED_AT) && Starts(run) == 2 && Failures(INIT, run) == 0
    ensures !StopsOnlyTheDead(SECOND_AIMED_AT)
  {
    var a, b := StartsTwice();
    var c, d := [Die(0), Run(1, Ok), Run(1, Ok)], [Run(1, Ok), Run(1, Ok), Run(1, Ok)];
    run := START_RUN + a + b + c + d;
    TwoStartsRun(run, a, b);
    TwoStartsCounts(run, a[1..] + b + c + d);
    assert SECOND_AIMED_AT.threads[1] == RecoverStop(Some(1));
  }

  // ---------------------------------------------------------------------------------------------
  // Exactly when
  // ---------------------------------------------------------------------------------------------

  /** Every run with at most so many Starts and failed calls. */
  ghost predicate AllStopOnlyTheDead(starts: nat, failures: nat) {
    forall run :: Exec(INIT, run).Some? && Starts(run) <= starts && Failures(INIT, run) <= failures ==>
      StopsOnlyTheDead(Exec(INIT, run).value)
  }

  /** Bounds on Starts and failed calls keep recoveries from stopping a living process exactly when there is no
      Start, or one Start and no call fails. */
  lemma StopsOnlyTheDeadIff(starts: nat, failures: nat)
    ensures AllStopOnlyTheDead(starts, failures) <==> starts == 0 || (starts == 1 && failures == 0)
  {
    if starts == 0 || (starts == 1 && failures == 0) {
      forall run | Exec(INIT, run).Some? && Starts(run) <= starts && Failures(INIT, run) <= failures
        ensures StopsOnlyTheDead(Exec(INIT, run).value)
      {
        if Starts(run) == 0 {
          NoStartNoRecovery(run);
        } else {
          QuietServerStopsOnlyTheDead(run);
        }
      }
    } else if starts == 1 {
      var earlier, later := LateWatchdogStopsSuccessor();
      assert Exec(INIT, earlier + later).Some?;
    } else {
      var run := TwoStartsStopTheLiving();
      assert Exec(INIT, run).Some?;
    }
  }
}
