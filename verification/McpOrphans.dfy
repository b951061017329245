/**
 Which subprocesses can be left running unattended.  A server on which Start is called once never
 leaks one: whenever the lock is free, every started process other than `s.pm` has been told to
 stop.  A second Start breaks this, because it overwrites `s.pm` without stopping the old process.
 */
module McpOrphans {
  import opened Common
  import opened McpLifecycle

  function Starts(run: seq<Step>): nat {
    if run == [] then 0 else (if run[0].NewStart? then 1 else 0) + Starts(run[1..])
  }

  ghost predicate NoOrphans(s: State) {
    s.f.mu.None? ==>
      forall p :: 0 <= p < |s.procs| && s.procs[p].started && Some(p) != s.f.pm ==> s.procs[p].stopped
  }

  /** Start calls that have not adopted a process yet. */
  function PreStart(pc: Pc): nat {
    if pc.StartEntry? || ((pc.Boot? || pc.BootStarted?) && pc.origin.ByStart?) then 1 else 0
  }

  function HasPm(f: Fields): nat { if f.pm.Some? then 1 else 0 }

  /** Positions that are reached only once a process has been adopted. */
  predicate NeedsPm(pc: Pc) {
    || pc.RecoverEntry? || InRecovery(pc) || pc.WatchSelect? || pc.WatchCheck?
    || (pc.CallAwait? && pc.via.Some?)
  }

  /** A recovery that has stopped the old process and not yet adopted the new one. */
  predicate Replaces(pc: Pc) {
    pc.RecoverSleep? || ((pc.Boot? || pc.BootStarted?) && pc.origin.ByRecovery?)
  }

  /** A recovery replaces exactly the process it stopped. */
  ghost predicate AimOk(pc: Pc, pm: Option<nat>, procs: seq<Proc>) {
    && (pc.RecoverStop? ==> pc.target == pm)
    && (Replaces(pc) ==> pm.Some? && pm.value < |procs| && procs[pm.value].stopped)
  }

  ghost predicate LiveOk(s: State, p: nat)
    requires p < |s.procs|
  {
    var q := s.procs[p];
    q.started && !q.stopped ==>
      || s.f.pm == Some(p)
      || (q.creator < |s.threads| && s.threads[q.creator].BootStarted? && s.threads[q.creator].p == p)
  }

  /** Every goroutine that needs an adopted process has one. */
  ghost predicate NeedsMet(s: State) {
    && (s.f.pm.Some? ==> s.f.pm.value < |s.procs|)
    && (forall t :: 0 <= t < |s.threads| && NeedsPm(s.threads[t]) ==> s.f.pm.Some?)
  }

  ghost predicate AimsOk(s: State) {
    forall t :: 0 <= t < |s.threads| ==> AimOk(s.threads[t], s.f.pm, s.procs)
  }

  ghost predicate LivesOk(s: State) {
    forall p :: 0 <= p < |s.procs| ==> LiveOk(s, p)
  }

  ghost predicate OrphanInv(s: State, starts: nat) {
    && Sum(s.threads, PreStart) + HasPm(s.f) <= starts
    && NeedsMet(s) && AimsOk(s) && LivesOk(s)
  }

  lemma ActNeedsPm(pc: Pc, t: nat, f: Fields, procs: seq<Proc>, c: Choice)
    requires Act(pc, t, f, procs, c).Some?
    requires HoldsMu(pc) ==> FieldsOk(pc, f)
    requires NeedsPm(pc) ==> f.pm.Some?
    ensures var e := Act(pc, t, f, procs, c).value;
            && (NeedsPm(e.pc) ==> e.f.pm.Some?)
            && (e.spawn.Some? && NeedsPm(e.spawn.value) ==> e.f.pm.Some?)
            && PreStart(e.pc) + HasPm(e.f) <= PreStart(pc) + HasPm(f)
  {
  }

  /** Only an adoption changes `s.pm`, and only the goroutine that started the process makes it. */
  lemma ActAdopts(pc: Pc, t: nat, f: Fields, procs: seq<Proc>, c: Choice)
    requires Act(pc, t, f, procs, c).Some?
    ensures var e := Act(pc, t, f, procs, c).value;
            && (if e.edit.Adopted? then pc.BootStarted? && pc.p == e.edit.p && e.f.pm == Some(pc.p)
                else e.f.pm == f.pm)
            && (pc.BootStarted? ==> e.edit == Adopted(pc.p) || e.edit == Stopped(Some(pc.p)))
            && (e.pc.BootStarted? <==> e.edit == Create(true))
            && (e.pc.BootStarted? ==> e.pc.p == |procs|)
  {
  }

  /** A recovery stops what it read from `s.pm` before it goes on. */
  lemma ActAims(pc: Pc, t: nat, f: Fields, procs: seq<Proc>, c: Choice)
    requires Act(pc, t, f, procs, c).Some?
    ensures var e := Act(pc, t, f, procs, c).value;
            && (e.pc.RecoverStop? ==> e.pc.target == e.f.pm)
            && (Replaces(e.pc) ==> Replaces(pc) || (pc.RecoverStop? && e.edit == Stopped(pc.target)))
            && (Replaces(e.pc) ==> e.f.pm == f.pm)
  {
  }

  /** Stop requests are never withdrawn and the other fields of a process stay put. */
  lemma EditOnlyStops(procs: seq<Proc>, e: Edit, t: nat, n: nat)
    ensures var procs' := Apply(procs, e, t, n);
            && |procs| <= |procs'|
            && (forall p :: 0 <= p < |procs| ==>
                  && procs'[p].creator == procs[p].creator && procs'[p].started == procs[p].started
                  && (procs[p].stopped ==> procs'[p].stopped))
            && (e.Stopped? && e.q.Some? && e.q.value < |procs| ==> procs'[e.q.value].stopped)
  {
  }

  /** Whoever adopts a process replaces one that was told to stop, or none. */
  lemma AdopterReplacesStopped(s: State, starts: nat, t: nat)
    requires OrphanInv(s, starts) && starts <= 1
    requires t < |s.threads| && s.threads[t].BootStarted?
    ensures s.f.pm.Some? ==> s.f.pm.value < |s.procs| && s.procs[s.f.pm.value].stopped
  {
    assert AimOk(s.threads[t], s.f.pm, s.procs);
    SumAtLeast(s.threads, t, PreStart);
  }

  /** Whoever adopts a process is the only one entitled to: nobody else is waiting on the old one. */
  lemma AdopterIsAlone(s: State, starts: nat, t: nat, u: nat)
    requires Inv(s) && OrphanInv(s, starts) && starts <= 1
    requires t < |s.threads| && u < |s.threads| && u != t && s.threads[t].BootStarted?
    ensures !InRecovery(s.threads[u]) && !s.threads[u].BootStarted?
  {
    assert HoldsMu(s.threads[t]) && s.f.mu == Some(t);
    assert HoldsMu(s.threads[u]) <==> s.f.mu == Some(u);
    SumAtLeast(s.threads, t, PreStart);
    if InRecovery(s.threads[u]) {
      assert NeedsPm(s.threads[u]) && s.f.pm.Some?;
      OneRecovery(s, t, u);
    }
  }

  lemma OneRecovery(s: State, t: nat, u: nat)
    requires Inv(s) && t < |s.threads| && u < |s.threads| && u != t
    ensures !(InRecovery(s.threads[t]) && InRecovery(s.threads[u]))
  {
    if t < u {
      SumAtLeastTwo(s.threads, t, u, RecoveryCount);
    } else {
      SumAtLeastTwo(s.threads, u, t, RecoveryCount);
    }
  }

  lemma ThreadStepKeepsAims(s: State, starts: nat, t: nat, c: Choice, e: Effect)
    requires Inv(s) && OrphanInv(s, starts) && starts <= 1
    requires t < |s.threads| && Act(s.threads[t], t, s.f, s.procs, c) == Some(e)
    requires e.spawn.Some? ==> e.spawn.value.WatchSelect? || e.spawn.value.RecoverEntry?
    ensures AimsOk(Perform(s, t, e))
  {
    var s' := Perform(s, t, e);
    var pc := s.threads[t];
    ActAims(pc, t, s.f, s.procs, c);
    ActAdopts(pc, t, s.f, s.procs, c);
    EditOnlyStops(s.procs, e.edit, t, |s.threads|);
    assert AimOk(pc, s.f.pm, s.procs) && (InRecovery(pc) ==> NeedsPm(pc));
    forall u | 0 <= u < |s'.threads|
      ensures AimOk(s'.threads[u], s'.f.pm, s'.procs)
    {
      if u < |s.threads| && u != t {
        assert AimOk(s.threads[u], s.f.pm, s.procs) && s'.threads[u] == s.threads[u];
        if e.edit.Adopted? {
          AdopterIsAlone(s, starts, t, u);
        }
      }
    }
  }

  lemma ThreadStepKeepsLive(s: State, starts: nat, t: nat, c: Choice, e: Effect)
    requires Inv(s) && OrphanInv(s, starts) && starts <= 1
    requires t < |s.threads| && Act(s.threads[t], t, s.f, s.procs, c) == Some(e)
    ensures LivesOk(Perform(s, t, e))
  {
    var s' := Perform(s, t, e);
    var pc := s.threads[t];
    ActAdopts(pc, t, s.f, s.procs, c);
    EditOnlyStops(s.procs, e.edit, t, |s.threads|);
    forall p | 0 <= p < |s'.procs|
      ensures LiveOk(s', p)
    {
      if p < |s.procs| {
        assert LiveOk(s, p);
        var u := s.procs[p].creator;
        if u < |s.threads| && u != t {
          assert s'.threads[u] == s.threads[u];
          if e.edit.Adopted? {
            AdopterIsAlone(s, starts, t, u);
          }
        }
        if e.edit.Adopted? {
          AdopterReplacesStopped(s, starts, t);
        }
      }
    }
  }

  lemma ThreadStepKeepsOrphanInv(s: State, starts: nat, t: nat, c: Choice, e: Effect)
    requires Inv(s) && OrphanInv(s, starts) && starts <= 1
    requires t < |s.threads| && Act(s.threads[t], t, s.f, s.procs, c) == Some(e)
    ensures OrphanInv(Perform(s, t, e), starts)
  {
    var s' := Perform(s, t, e);
    var pc := s.threads[t];
    assert ThreadOk(s, t) && (HoldsMu(pc) ==> FieldsOk(pc, s.f));
    ActNeedsPm(pc, t, s.f, s.procs, c);
    ActAdopts(pc, t, s.f, s.procs, c);
    ActSpawns(pc, t, s.f, s.procs, c);
    assert Sum(s'.threads, PreStart) + HasPm(s'.f) <= starts by { SumPerform(s, t, e, PreStart); }
    assert s'.f.pm.Some? ==> s'.f.pm.value < |s'.procs| by {
      EditOnlyStops(s.procs, e.edit, t, |s.threads|);
    }
    forall u | 0 <= u < |s'.threads| && NeedsPm(s'.threads[u])
      ensures s'.f.pm.Some?
    {
      assert u < |s.threads| && u != t ==> s'.threads[u] == s.threads[u];
    }
    ThreadStepKeepsAims(s, starts, t, c, e);
    ThreadStepKeepsLive(s, starts, t, c, e);
  }

  /** A new call brings no aims and needs nothing. */
  lemma CallKeepsOrphanInv(s: State, starts: nat, pc: Pc, s': State, starts': nat)
    requires OrphanInv(s, starts) && (pc == StartEntry || pc == StopEntry || pc == CallEntry)
    requires s' == Spawn(s, pc) && starts' == starts + PreStart(pc)
    ensures OrphanInv(s', starts')
  {
    SumAppend(s.threads, pc, PreStart);
    forall t | 0 <= t < |s'.threads|
      ensures AimOk(s'.threads[t], s'.f.pm, s'.procs)
      ensures NeedsPm(s'.threads[t]) ==> s'.f.pm.Some?
    {
      if t < |s.threads| {
        assert s'.threads[t] == s.threads[t] && AimOk(s.threads[t], s.f.pm, s.procs);
      }
    }
    assert LivesOk(s') by {
      CallKeepsLives(s, pc);
    }
  }

  lemma CallKeepsLives(s: State, pc: Pc)
    requires LivesOk(s)
    ensures LivesOk(Spawn(s, pc))
  {
    forall p | 0 <= p < |s.procs|
      ensures LiveOk(Spawn(s, pc), p)
    {
      assert LiveOk(s, p);
    }
  }

  /** A process that exits changes no stop request and no creator. */
  lemma DieKeepsOrphanInv(s: State, starts: nat, p: nat, s': State)
    requires OrphanInv(s, starts) && Next(s, Die(p)) == Some(s')
    ensures OrphanInv(s', starts)
  {
    assert AimsOk(s') by {
      forall t | 0 <= t < |s.threads|
        ensures AimOk(s'.threads[t], s'.f.pm, s'.procs)
      {
        assert AimOk(s.threads[t], s.f.pm, s.procs);
      }
    }
    assert LivesOk(s') by {
      forall q | 0 <= q < |s.procs|
        ensures LiveOk(s', q)
      {
        assert LiveOk(s, q);
      }
    }
  }

  lemma RunStepKeepsOrphanInv(s: State, starts: nat, t: nat, c: Choice, s': State)
    requires Inv(s) && OrphanInv(s, starts) && starts <= 1 && Next(s, Run(t, c)) == Some(s')
    ensures OrphanInv(s', starts)
  {
    var e := Act(s.threads[t], t, s.f, s.procs, c).value;
    ThreadStepKeepsOrphanInv(s, starts, t, c, e);
    assert s' == Perform(s, t, e);
  }

  lemma StepKeepsOrphanInv(s: State, starts: nat, st: Step, s': State, starts': nat)
    requires Inv(s) && OrphanInv(s, starts) && starts <= 1 && Next(s, st) == Some(s')
    requires starts' == starts + if st.NewStart? then 1 else 0
    ensures OrphanInv(s', starts')
  {
    match st {
      case NewStart => CallKeepsOrphanInv(s, starts, StartEntry, s', starts');
      case NewStop => CallKeepsOrphanInv(s, starts, StopEntry, s', starts');
      case NewCall => CallKeepsOrphanInv(s, starts, CallEntry, s', starts');
      case Die(p) => DieKeepsOrphanInv(s, starts, p, s');
      case Run(t, c) => RunStepKeepsOrphanInv(s, starts, t, c, s');
    }
  }

  lemma {:induction false} RunKeepsOrphanInv(s: State, starts: nat, run: seq<Step>)
    requires Inv(s) && OrphanInv(s, starts) && starts + Starts(run) <= 1 && Exec(s, run).Some?
    ensures Inv(Exec(s, run).value) && OrphanInv(Exec(s, run).value, starts + Starts(run))
    decreases |run|
  {
    if run != [] {
      var s1 := Next(s, run[0]).value;
      StepKeepsInv(s, run[0], s1);
      var starts1 := starts + if run[0].NewStart? then 1 else 0;
      StepKeepsOrphanInv(s, starts, run[0], s1, starts1);
      RunKeepsOrphanInv(s1, starts1, run[1..]);
    }
  }

  /** In every run with at most one Start call, no process is ever left running unattended. */
  lemma OneStartLeavesNoOrphans(run: seq<Step>)
    requires Exec(INIT, run).Some? && Starts(run) <= 1
    ensures NoOrphans(Exec(INIT, run).value)
  {
    RunKeepsOrphanInv(INIT, 0, run);
    var s := Exec(INIT, run).value;
    forall p | 0 <= p < |s.procs| && s.procs[p].started && s.f.mu.None? && Some(p) != s.f.pm
      ensures s.procs[p].stopped
    {
      assert LiveOk(s, p);
      assert s.procs[p].creator < |s.threads| ==> !HoldsMu(s.threads[s.procs[p].creator]);
    }
  }

  // ---------------------------------------------------------------------------------------------
  // Two Start calls
  // ---------------------------------------------------------------------------------------------

  const RESTARTING := State([Done, WatchSelect(0), AssignClient(ByStart, 1)],
                            STARTED.f.(mu := Some(2), pm := Some(1)),
                            STARTED.procs + [Proc(2, true, false, false, 1, [])])

  const STARTED_TWICE := State([Done, WatchSelect(0), Done, WatchSelect(1)],
                              Fields(None, Some(1), Some(1), Some(1), true, false, false),
                              STARTED.procs + [Proc(2, true, false, false, 1, [3])])

  lemma SecondStartCreates()
    ensures Exec(STARTED, [NewStart, Run(2, Ok), Run(2, Ok), Run(2, Ok)]) == Some(RESTARTING)
  {
    var r := Exec(STARTED, [NewStart, Run(2, Ok), Run(2, Ok), Run(2, Ok)]).value;
    assert r.threads == RESTARTING.threads && r.procs == RESTARTING.procs;
  }

  lemma SecondStartAssigns()
    ensures Exec(RESTARTING, [Run(2, Ok), Run(2, Ok), Run(2, Ok), Run(2, Ok)]) == Some(STARTED_TWICE)
  {
    var r := Exec(RESTARTING, [Run(2, Ok), Run(2, Ok), Run(2, Ok), Run(2, Ok)]).value;
    assert r.procs[1].watchers == [3];
    assert r.threads == STARTED_TWICE.threads && r.procs == STARTED_TWICE.procs;
  }

  lemma {:induction false} StartsConcat(a: seq<Step>, b: seq<Step>)
    ensures Starts(a + b) == Starts(a) + Starts(b)
    decreases |a|
  {
    if a == [] {
      assert a + b == b;
    } else {
      assert (a + b)[1..] == a[1..] + b;
      StartsConcat(a[1..], b);
    }
  }

  lemma {:induction false} NoStarts(run: seq<Step>)
    requires forall i :: 0 <= i < |run| ==> !run[i].NewStart?
    ensures Starts(run) == 0
    decreases |run|
  {
    if run != [] {
      NoStarts(run[1..]);
    }
  }

  /** Two Start calls one after the other, with no other calls. */
  lemma StartsTwice() returns (a: seq<Step>, b: seq<Step>)
    ensures a == [NewStart, Run(2, Ok), Run(2, Ok), Run(2, Ok)]
    ensures b == [Run(2, Ok), Run(2, Ok), Run(2, Ok), Run(2, Ok)]
    ensures Exec(INIT, START_RUN + a + b) == Some(STARTED_TWICE)
  {
    a := [NewStart, Run(2, Ok), Run(2, Ok), Run(2, Ok)];
    b := [Run(2, Ok), Run(2, Ok), Run(2, Ok), Run(2, Ok)];
    StartSucceeds();
    SecondStartCreates();
    SecondStartAssigns();
    ExecConcat(INIT, START_RUN, a);
    ExecConcat(INIT, START_RUN + a, b);
  }

  lemma StartRunStarts()
    ensures Starts(START_RUN) == 1
  {
    NoStarts(START_RUN[1..]);
  }

  /** Calling Start twice leaves the first process running: the server's fields no longer lead to it, and
      only its watchdog waits for it to exit. */
  lemma TwoStartsOrphanAProcess() returns (run: seq<Step>)
    ensures Exec(INIT, run).Some? && Starts(run) == 2 && !NoOrphans(Exec(INIT, run).value)
  {
    var a, b := StartsTwice();
    run := START_RUN + a + b;
    assert Starts(run) == 2 by {
      StartRunStarts();
      StartsConcat(START_RUN, a);
      StartsConcat(START_RUN + a, b);
      NoStarts(a[1..]);
      NoStarts(b);
    }
    assert STARTED_TWICE.procs[0].started && !STARTED_TWICE.procs[0].stopped;
  }

  /** Limiting the number of Start calls rules orphans out exactly when the limit is one. */
  lemma NoOrphansIffOneStart(n: nat)
    ensures (forall run :: Exec(INIT, run).Some? && Starts(run) <= n ==> NoOrphans(Exec(INIT, run).value))
            <==> n <= 1
  {
    if n <= 1 {
      forall run | Exec(INIT, run).Some? && Starts(run) <= n
        ensures NoOrphans(Exec(INIT, run).value)
      {
        OneStartLeavesNoOrphans(run);
      }
    } else {
      var run := TwoStartsOrphanAProcess();
    }
  }
}
