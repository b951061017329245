/**
 What a tool call meets.  It is refused while a recovery is under way, otherwise it reads the client under the
 lock and waits for its answer; it changes nothing of the server, and a failure launches one recovery.
 */
module McpCalls {
  import opened Common
  import opened McpLifecycle
  import opened McpOrphans
  import opened McpLeftovers

  /** No goroutine is recovering the server. */
  ghost predicate Quiet(s: State) { forall u :: 0 <= u < |s.threads| ==> !InRecovery(s.threads[u]) }

  lemma RecoveringIffNotQuiet(s: State)
    requires Inv(s)
    ensures s.f.recovering <==> !Quiet(s)
  {
    if s.f.recovering {
      var u := SumPositive(s.threads, RecoveryCount);
    }
    forall u | 0 <= u < |s.threads| && InRecovery(s.threads[u])
      ensures s.f.recovering
    {
      SumAtLeast(s.threads, u, RecoveryCount);
    }
  }

  /** A step that only moves the goroutine. */
  lemma OnlyMoves(s: State, t: nat, c: Choice, pc: Pc)
    requires t < |s.threads| && Act(s.threads[t], t, s.f, s.procs, c) == Go(pc, s.f)
    ensures Next(s, Run(t, c)) == Some(s.(threads := s.threads[t := pc]))
  {
    assert s.threads[t := pc] + [] == s.threads[t := pc];
  }

  /** In every state of every run, a call's first step lets it in exactly when nobody is recovering the server;
      otherwise the call is over.  Nothing else changes. */
  lemma CallIsAdmittedIff(history: seq<Step>, s: State, t: nat, c: Choice)
    requires Exec(INIT, history) == Some(s) && t < |s.threads| && s.threads[t] == CallEntry
    ensures Quiet(s) ==> Next(s, Run(t, c)) == Some(s.(threads := s.threads[t := CallLock]))
    ensures !Quiet(s) ==> Next(s, Run(t, c)) == Some(s.(threads := s.threads[t := Done]))
  {
    RunKeepsInv(INIT, history);
    RecoveringIffNotQuiet(s);
    OnlyMoves(s, t, c, if s.f.recovering then Done else CallLock);
  }

  predicate IsAdmitted(pc: Pc) { pc.CallLock? || pc.CallSnapshot? || pc.CallAwait? }

  /** Step `k` of the run lets goroutine `t` in, with nobody recovering the server. */
  ghost predicate AdmittedAt(run: seq<Step>, t: nat, k: nat) {
    && k < |run| && run[k].Run? && run[k].t == t
    && Exec(INIT, run[..k]).Some?
    && var s := Exec(INIT, run[..k]).value;
       t < |s.threads| && s.threads[t] == CallEntry && Quiet(s)
  }

  lemma ActAdmits(pc: Pc, t: nat, f: Fields, procs: seq<Proc>, c: Choice)
    requires Act(pc, t, f, procs, c).Some?
    ensures var e := Act(pc, t, f, procs, c).value;
            && (IsAdmitted(e.pc) ==> IsAdmitted(pc) || (pc.CallEntry? && !f.recovering))
            && (e.spawn.Some? ==> !IsAdmitted(e.spawn.value))
  {
  }

  lemma StepAdmits(s: State, st: Step, s': State, t: nat)
    requires Inv(s) && Next(s, st) == Some(s') && t < |s'.threads| && IsAdmitted(s'.threads[t])
    ensures t < |s.threads|
    ensures IsAdmitted(s.threads[t]) || (s.threads[t] == CallEntry && st.Run? && st.t == t && Quiet(s))
  {
    RecoveringIffNotQuiet(s);
    if st.Run? {
      ActAdmits(s.threads[st.t], st.t, s.f, s.procs, st.choice);
    }
  }

  /** Whoever is past its first step, in any state of any run, took that step while nobody was recovering. */
  lemma {:induction false} AdmittedCallsStartedQuiet(run: seq<Step>, n: nat, t: nat) returns (k: nat)
    requires n <= |run| && Exec(INIT, run[..n]).Some?
    requires t < |Exec(INIT, run[..n]).value.threads| && IsAdmitted(Exec(INIT, run[..n]).value.threads[t])
    ensures k < n && AdmittedAt(run, t, k)
  {
    assert run[..0] == [];
    PrefixRuns(run, n - 1);
    var before := Exec(INIT, run[..n - 1]).value;
    RunKeepsInv(INIT, run[..n - 1]);
    StepAdmits(before, run[n - 1], Exec(INIT, run[..n]).value, t);
    if IsAdmitted(before.threads[t]) {
      k := AdmittedCallsStartedQuiet(run, n - 1, t);
    } else {
      k := n - 1;
    }
  }

  predicate IsCall(pc: Pc) { pc.CallEntry? || IsAdmitted(pc) }

  /** A call leaves the server's fields and processes alone, the mutex apart, and launches a recovery exactly
      when its client fails. */
  lemma CallLeavesServerAlone(s: State, t: nat, c: Choice, s': State)
    requires t < |s.threads| && IsCall(s.threads[t]) && Next(s, Run(t, c)) == Some(s')
    ensures s'.procs == s.procs && s'.f == s.f.(mu := s'.f.mu)
    ensures var fails := s.threads[t].CallAwait? && s.threads[t].via.Some? && !c.Ok?;
            s'.threads == s.threads[t := s'.threads[t]] + if fails then [RecoverEntry] else []
  {
  }

  // What a call talks to.

  function Via(pc: Pc): Option<nat> { if pc.CallAwait? then pc.via else None }

  ghost predicate ClientInv(s: State) {
    && IsAdopted(s.f.client, s.procs)
    && forall t :: 0 <= t < |s.threads| ==> IsAdopted(Via(s.threads[t]), s.procs)
  }

  lemma ActUsesClient(pc: Pc, t: nat, f: Fields, procs: seq<Proc>, c: Choice)
    requires Act(pc, t, f, procs, c).Some?
    ensures var e := Act(pc, t, f, procs, c).value;
            && Via(e.pc) == (if pc.CallSnapshot? then f.client else None)
            && (e.spawn.Some? ==> Via(e.spawn.value) == None)
  {
  }

  lemma ActSetsClient(pc: Pc, t: nat, f: Fields, procs: seq<Proc>, c: Choice)
    requires Act(pc, t, f, procs, c).Some? && (pc.AssignClient? ==> f.pm == Some(pc.p))
    ensures var client := Act(pc, t, f, procs, c).value.f.client; client == f.client || client == f.pm
  {
  }

  lemma StepKeepsClientInv(s: State, st: Step, s': State)
    requires Inv(s) && AimInv(s) && ClientInv(s) && Next(s, st) == Some(s')
    ensures ClientInv(s')
  {
    if st.Run? {
      var e := Act(s.threads[st.t], st.t, s.f, s.procs, st.choice).value;
      assert HoldsMu(s.threads[st.t]) ==> FieldsOk(s.threads[st.t], s.f);
      ActUsesClient(s.threads[st.t], st.t, s.f, s.procs, st.choice);
      ActSetsClient(s.threads[st.t], st.t, s.f, s.procs, st.choice);
      StepKeepsAdopted(s, st.t, e, s.f.client);
      StepKeepsAdopted(s, st.t, e, s.f.pm);
      forall u | 0 <= u < |s'.threads|
        ensures IsAdopted(Via(s'.threads[u]), s'.procs)
      {
        if u < |s.threads| && u != st.t {
          StepKeepsAdopted(s, st.t, e, Via(s.threads[u]));
        }
      }
    } else {
      OutsideStepKeepsClientInv(s, st, s');
    }
  }

  lemma OutsideStepKeepsClientInv(s: State, st: Step, s': State)
    requires ClientInv(s) && !st.Run? && Next(s, st) == Some(s')
    ensures ClientInv(s')
  {
    forall u | 0 <= u < |s'.threads|
      ensures IsAdopted(Via(s'.threads[u]), s'.procs)
    {
      assert u < |s.threads| ==> IsAdopted(Via(s.threads[u]), s.procs);
    }
  }

  lemma {:induction false} RunKeepsClientInv(s: State, run: seq<Step>)
    requires Inv(s) && AimInv(s) && ClientInv(s) && Exec(s, run).Some?
    ensures ClientInv(Exec(s, run).value)
    decreases |run|
  {
    if run != [] {
      var s1 := Next(s, run[0]).value;
      StepKeepsInv(s, run[0], s1);
      StepKeepsAimInv(s, run[0], s1);
      StepKeepsClientInv(s, run[0], s1);
      RunKeepsClientInv(s1, run[1..]);
    }
  }

  /** In every state of every run a call that waits does so on the client of a process that was started and
      adopted. */
  lemma CallsUseAdoptedProcesses(run: seq<Step>, s: State, t: nat, p: nat)
    requires Exec(INIT, run) == Some(s) && t < |s.threads| && s.threads[t] == CallAwait(Some(p))
    ensures p < |s.procs| && s.procs[p].started && s.procs[p].adoptions == 1
  {
    RunKeepsClientInv(INIT, run);
    RunKeepsInv(INIT, run);
    assert IsAdopted(Via(s.threads[t]), s.procs) && ProcOk(s, p);
  }

  // ---------------------------------------------------------------------------------------------
  // Watchdogs
  // ---------------------------------------------------------------------------------------------

  /** A watchdog ends with its context or with Stop, and notices exactly the death of its own process. */
  lemma WatchdogActsIff(s: State, t: nat, p: nat)
    requires t < |s.threads| && p < |s.procs| && s.threads[t] == WatchSelect(p)
    ensures Next(s, Run(t, CtxDone)) == Some(s.(threads := s.threads[t := Done]))
    ensures Next(s, Run(t, Err)) == if s.f.stopClosed then Some(s.(threads := s.threads[t := Done])) else None
    ensures Next(s, Run(t, Ok)) == if s.procs[p].dead then Some(s.(threads := s.threads[t := WatchCheck(p)])) else None
  {
    OnlyMoves(s, t, CtxDone, Done);
    if s.f.stopClosed {
      OnlyMoves(s, t, Err, Done);
    }
    if s.procs[p].dead {
      OnlyMoves(s, t, Ok, WatchCheck(p));
    }
  }

  /** It then recovers the server unless Stop has been called by the time it looks. */
  lemma WatchdogRecoversIff(s: State, t: nat, p: nat, c: Choice)
    requires t < |s.threads| && s.threads[t] == WatchCheck(p)
    ensures Next(s, Run(t, c)) == Some(s.(threads := s.threads[t := if s.f.stopClosed then Done else RecoverEntry]))
  {
    OnlyMoves(s, t, c, if s.f.stopClosed then Done else RecoverEntry);
  }
}
