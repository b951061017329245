/**
 Background agents: every Spawn starts a goroutine that takes a slot of a bounded semaphore, generates,
 records its outcome, reports it and gives the slot back, or leaves early when its context ends.  Cancel
 and CancelAll write the status from outside.  A run interleaves any number of agents.
 */
module BackgroundAgents {
  import opened Common
  import opened Decimal

  datatype Status = Pending | Running | Done | Failed | Cancelled

  /** Where an agent's goroutine stands; `ok` is the outcome of its generation. */
  datatype Pc =
    | Waiting
    | Acquired
    | Generating
    | Writing(ok: bool)
    | Reporting(ok: bool)
    | Releasing(ok: bool)
    | CtxWriting
    | CtxReporting
    | Finished(outcome: Option<bool>)

  /** `taken`, `released` and `reported` count slot acquisitions, releases and calls of `onDone`. */
  datatype Agent = Agent(status: Status, pc: Pc, taken: nat, released: nat, reported: nat)

  /** `used` is the number of occupied slots; agent `i` was the `i + 1`st to be spawned. */
  datatype State = State(agents: seq<Agent>, used: nat)

  datatype Choice = Ok | Err | CtxDone

  datatype Step = Spawn | Cancel(i: nat) | CancelAll | Run(i: nat, choice: Choice)

  const INIT := State([], 0)

  function CancelOne(a: Agent): Agent {
    if a.status.Pending? || a.status.Running? then a.(status := Cancelled) else a
  }

  /** The next step of one goroutine and what it does to the semaphore. */
  function Act(a: Agent, used: nat, cap: nat, c: Choice): Option<(Agent, nat)> {
    match a.pc
    case Waiting =>
      if c.CtxDone? then Some((a.(pc := CtxWriting), used))
      else if used < cap then Some((a.(pc := Acquired, taken := a.taken + 1), used + 1))
      else None
    case Acquired => Some((a.(status := Running, pc := Generating), used))
    case Generating => Some((a.(pc := Writing(c.Ok?)), used))
    case Writing(ok) => Some((a.(status := if ok then Done else Failed, pc := Reporting(ok)), used))
    case Reporting(ok) => Some((a.(reported := a.reported + 1, pc := Releasing(ok)), used))
    case Releasing(ok) =>
      if used > 0 then
        Some((a.(released := a.released + 1, pc := Finished(Some(ok))), used - 1))
      else None
    case CtxWriting => Some((a.(status := Cancelled, pc := CtxReporting), used))
    case CtxReporting => Some((a.(reported := a.reported + 1, pc := Finished(None)), used))
    case Finished(_) => None
  }

  function Next(s: State, cap: nat, st: Step): Option<State> {
    match st
    case Spawn => Some(s.(agents := s.agents + [Agent(Pending, Waiting, 0, 0, 0)]))
    case Cancel(i) =>
      if i < |s.agents| then Some(s.(agents := s.agents[i := CancelOne(s.agents[i])])) else Some(s)
    case CancelAll =>
      Some(s.(agents := seq(|s.agents|, i requires 0 <= i < |s.agents| => CancelOne(s.agents[i]))))
    case Run(i, c) =>
      if i >= |s.agents| then None
      else match Act(s.agents[i], s.used, cap, c)
        case None => None
        case Some((a, used)) => Some(State(s.agents[i := a], used))
  }

  function Exec(s: State, cap: nat, run: seq<Step>): Option<State>
    decreases |run|
  {
    if run == [] then Some(s)
    else match Next(s, cap, run[0])
      case None => None
      case Some(s1) => Exec(s1, cap, run[1..])
  }

  // ---------------------------------------------------------------------------------------------
  // Bounded concurrency
  // ---------------------------------------------------------------------------------------------

  predicate HoldsSlot(pc: Pc) {
    pc.Acquired? || pc.Generating? || pc.Writing? || pc.Reporting? || pc.Releasing?
  }

  function Slots(a: Agent): nat { if HoldsSlot(a.pc) then 1 else 0 }

  function IsRunning(a: Agent): nat { if a.status.Running? then 1 else 0 }

  /** The status an agent may show, from where its goroutine stands. */
  predicate StatusOk(a: Agent) {
    match a.pc
    case Waiting => a.status.Pending? || a.status.Cancelled?
    case Acquired => a.status.Pending? || a.status.Cancelled?
    case Generating => a.status.Running? || a.status.Cancelled?
    case Writing(_) => a.status.Running? || a.status.Cancelled?
    case Reporting(ok) => a.status == if ok then Done else Failed
    case Releasing(ok) => a.status == if ok then Done else Failed
    case CtxWriting => a.status.Pending? || a.status.Cancelled?
    case CtxReporting => a.status.Cancelled?
    case Finished(o) => a.status == match o case None => Cancelled case Some(ok) => if ok then Done else Failed
  }

  predicate CountsOk(a: Agent) {
    match a.pc
    case Waiting => a.taken == a.released == a.reported == 0
    case CtxWriting => a.taken == a.released == a.reported == 0
    case CtxReporting => a.taken == a.released == a.reported == 0
    case Releasing(_) => a.taken == a.reported == 1 && a.released == 0
    case Finished(o) => a.reported == 1 && a.taken == a.released == if o.Some? then 1 else 0
    case _ => a.taken == 1 && a.released == a.reported == 0
  }

  ghost predicate Inv(s: State, cap: nat) {
    && s.used == Sum(s.agents, Slots) && s.used <= cap
    && forall i :: 0 <= i < |s.agents| ==> StatusOk(s.agents[i]) && CountsOk(s.agents[i])
  }

  lemma ActKeepsAgent(a: Agent, used: nat, cap: nat, c: Choice)
    requires Act(a, used, cap, c).Some? && StatusOk(a) && CountsOk(a)
    requires used <= cap
    ensures var (a', used') := Act(a, used, cap, c).value;
            && StatusOk(a') && CountsOk(a') && used' <= cap
            && used' - used == Slots(a') - Slots(a)
  {
  }

  lemma {:induction false} CancellingKeepsSlots(a: seq<Agent>, b: seq<Agent>)
    requires |a| == |b| && forall i :: 0 <= i < |a| ==> b[i].pc == a[i].pc
    ensures Sum(a, Slots) == Sum(b, Slots)
    decreases |a|
  {
    if a != [] {
      CancellingKeepsSlots(a[..|a| - 1], b[..|b| - 1]);
    }
  }

  lemma StepKeepsInv(s: State, cap: nat, st: Step)
    requires Inv(s, cap) && Next(s, cap, st).Some?
    ensures Inv(Next(s, cap, st).value, cap)
  {
    var s' := Next(s, cap, st).value;
    match st {
      case Spawn => SumAppend(s.agents, s'.agents[|s.agents|], Slots);
      case Run(i, c) => AgentStepKeepsInv(s, cap, i, c);
      case _ => CancelKeepsInv(s, cap, s');
    }
  }

  lemma AgentStepKeepsInv(s: State, cap: nat, i: nat, c: Choice)
    requires Inv(s, cap) && i < |s.agents| && Act(s.agents[i], s.used, cap, c).Some?
    ensures var (a, used) := Act(s.agents[i], s.used, cap, c).value; Inv(State(s.agents[i := a], used), cap)
  {
    var (a, used) := Act(s.agents[i], s.used, cap, c).value;
    ActKeepsAgent(s.agents[i], s.used, cap, c);
    UpdateKeepsInv(s, cap, i, a, used);
  }

  lemma UpdateKeepsInv(s: State, cap: nat, i: nat, a: Agent, used: nat)
    requires Inv(s, cap) && i < |s.agents| && StatusOk(a) && CountsOk(a)
    requires used <= cap && used - s.used == Slots(a) - Slots(s.agents[i])
    ensures Inv(State(s.agents[i := a], used), cap)
  {
    SumUpdate(s.agents, i, a, Slots);
  }

  lemma CancelKeepsAgent(a: Agent)
    requires StatusOk(a) && CountsOk(a)
    ensures CancelOne(a).pc == a.pc && StatusOk(CancelOne(a)) && CountsOk(CancelOne(a))
  {
  }

  lemma CancelKeepsInv(s: State, cap: nat, s': State)
    requires Inv(s, cap) && s'.used == s.used && |s'.agents| == |s.agents|
    requires forall i :: 0 <= i < |s.agents| ==>
               s'.agents[i] == s.agents[i] || s'.agents[i] == CancelOne(s.agents[i])
    ensures Inv(s', cap)
  {
    forall i | 0 <= i < |s.agents|
      ensures s'.agents[i].pc == s.agents[i].pc && StatusOk(s'.agents[i]) && CountsOk(s'.agents[i])
    {
      CancelKeepsAgent(s.agents[i]);
    }
    CancellingKeepsSlots(s.agents, s'.agents);
  }

  lemma {:induction false} RunKeepsInv(s: State, cap: nat, run: seq<Step>)
    requires Inv(s, cap) && Exec(s, cap, run).Some?
    ensures Inv(Exec(s, cap, run).value, cap)
    decreases |run|
  {
    if run != [] {
      StepKeepsInv(s, cap, run[0]);
      RunKeepsInv(Next(s, cap, run[0]).value, cap, run[1..]);
    }
  }

  /** In every interleaving: no more agents run than there are slots, and every goroutine takes, frees
      and reports at most once. */
  lemma ConcurrencyIsBounded(cap: nat, run: seq<Step>)
    requires Exec(INIT, cap, run).Some?
    ensures var s := Exec(INIT, cap, run).value;
            && Sum(s.agents, IsRunning) <= s.used <= cap
            && forall i :: 0 <= i < |s.agents| ==>
                 && s.agents[i].released <= s.agents[i].taken <= 1
                 && s.agents[i].reported <= 1
                 && (s.agents[i].pc.Finished? ==>
                       s.agents[i].released == s.agents[i].taken && s.agents[i].reported == 1)
  {
    RunKeepsInv(INIT, cap, run);
    var s := Exec(INIT, cap, run).value;
    forall i | 0 <= i < |s.agents|
      ensures IsRunning(s.agents[i]) <= Slots(s.agents[i])
    {
      assert StatusOk(s.agents[i]);
    }
    SumMonotone(s.agents, IsRunning, Slots);
  }

  /** When every goroutine has ended, every slot is free. */
  lemma SlotsAreReturned(cap: nat, run: seq<Step>)
    requires Exec(INIT, cap, run).Some?
    requires forall i :: 0 <= i < |Exec(INIT, cap, run).value.agents| ==>
               Exec(INIT, cap, run).value.agents[i].pc.Finished?
    ensures Exec(INIT, cap, run).value.used == 0
  {
    RunKeepsInv(INIT, cap, run);
    var s := Exec(INIT, cap, run).value;
    if s.used > 0 {
      var i := SumPositive(s.agents, Slots);
    }
  }

  // ---------------------------------------------------------------------------------------------
  // Coming to an end
  // ---------------------------------------------------------------------------------------------

  /** The steps a goroutine still has to take. */
  function Work(a: Agent): nat {
    match a.pc
    case Waiting => 6
    case Acquired => 5
    case Generating => 4
    case Writing(_) => 3
    case Reporting(_) => 2
    case CtxWriting => 2
    case Releasing(_) => 1
    case CtxReporting => 1
    case Finished(_) => 0
  }

  lemma AgentDoesWork(s: State, cap: nat, i: nat, c: Choice)
    requires Next(s, cap, Run(i, c)).Some?
    ensures Sum(Next(s, cap, Run(i, c)).value.agents, Work) < Sum(s.agents, Work)
  {
    var (a, used) := Act(s.agents[i], s.used, cap, c).value;
    SumUpdate(s.agents, i, a, Work);
  }

  /** Each agent takes at most six steps: without new ones every run of the goroutines ends. */
  lemma {:induction false} AgentsEnd(s: State, cap: nat, run: seq<Step>)
    requires Exec(s, cap, run).Some? && forall k :: 0 <= k < |run| ==> run[k].Run?
    ensures |run| + Sum(Exec(s, cap, run).value.agents, Work) <= Sum(s.agents, Work)
    decreases |run|
  {
    if run != [] {
      AgentDoesWork(s, cap, run[0].i, run[0].choice);
      AgentsEnd(Next(s, cap, run[0]).value, cap, run[1..]);
    }
  }

  lemma SlotHolderMoves(s: State, cap: nat)
    requires Inv(s, cap)
    ensures s.used > 0 ==> exists k :: 0 <= k < |s.agents| && Next(s, cap, Run(k, Ok)).Some?
  {
    if s.used > 0 {
      var k := SumPositive(s.agents, Slots);
      assert Next(s, cap, Run(k, Ok)).Some?;
    }
  }

  /** With at least one slot nobody waits for ever: once no goroutine can go on, every one has finished. */
  lemma RestMeansFinished(history: seq<Step>, cap: nat, s: State)
    requires 0 < cap && Exec(INIT, cap, history) == Some(s)
    requires forall i, c :: 0 <= i < |s.agents| && c != CtxDone ==> Next(s, cap, Run(i, c)).None?
    ensures forall i :: 0 <= i < |s.agents| ==> s.agents[i].pc.Finished?
  {
    RunKeepsInv(INIT, cap, history);
    forall i | 0 <= i < |s.agents|
      ensures s.agents[i].pc.Finished?
    {
      assert Next(s, cap, Run(i, Ok)).None?;
      SumAtLeast(s.agents, i, Slots);
      SlotHolderMoves(s, cap);
    }
  }

  // ---------------------------------------------------------------------------------------------
  // Cancelling
  // ---------------------------------------------------------------------------------------------

  /** In every run an agent that has ended shows the outcome of its own goroutine: cancelled exactly
      when its context ended before it got a slot.  Cancel and CancelAll leave no trace. */
  lemma FinalStatusIgnoresCancel(cap: nat, run: seq<Step>, i: nat)
    requires Exec(INIT, cap, run).Some? && i < |Exec(INIT, cap, run).value.agents|
    requires Exec(INIT, cap, run).value.agents[i].pc.Finished?
    ensures var a := Exec(INIT, cap, run).value.agents[i];
            && (a.status == Cancelled <==> a.taken == 0)
            && (a.status == Done <==> a.pc.outcome == Some(true))
            && (a.status == Failed <==> a.pc.outcome == Some(false))
  {
    RunKeepsInv(INIT, cap, run);
    var s := Exec(INIT, cap, run).value;
    assert StatusOk(s.agents[i]) && CountsOk(s.agents[i]);
  }

  /** A running agent that is cancelled is shown as cancelled, and two steps later by what its generation came
      to. */
  lemma CancelIsOverwritten(s: State, cap: nat, i: nat, c: Choice, d: Choice) returns (end: State)
    requires Inv(s, cap) && i < |s.agents| && s.agents[i].pc.Generating?
    ensures var s1 := Next(s, cap, Cancel(i)).value;
            && s1.agents[i].status == Cancelled
            && Exec(s1, cap, [Run(i, c), Run(i, d)]) == Some(end)
    ensures i < |end.agents| && end.agents[i].status == if c == Ok then Done else Failed
  {
    var s1 := Next(s, cap, Cancel(i)).value;
    var run := [Run(i, c), Run(i, d)];
    assert StatusOk(s.agents[i]);
    var s2 := Next(s1, cap, run[0]).value;
    end := Next(s2, cap, run[1]).value;
    assert run[1..] == [run[1]] && run[1..][1..] == [];
    assert Exec(s2, cap, [run[1]]) == Exec(end, cap, []);
  }

  lemma OneStep(s: State, cap: nat, i: nat, c: Choice, a: Agent)
    requires i < |s.agents| && Act(s.agents[i], s.used, cap, c) == Some((a, s.used))
    ensures Next(s, cap, Run(i, c)) == Some(s.(agents := s.agents[i := a]))
  {
  }

  /** A waiting agent whose context ends leaves in three steps, whether or not a slot is free and without taking
      one: it is shown as cancelled and reports once. */
  lemma ContextEndsWaiting(s: State, cap: nat, i: nat, c: Choice, d: Choice)
    requires i < |s.agents| && s.agents[i].pc == Waiting
    ensures var a := s.agents[i];
            var end := a.(status := Cancelled, pc := Finished(None), reported := a.reported + 1);
            Exec(s, cap, [Run(i, CtxDone), Run(i, c), Run(i, d)]) == Some(s.(agents := s.agents[i := end]))
  {
    var a := s.agents[i];
    var a1 := a.(pc := CtxWriting);
    var a2 := a.(status := Cancelled, pc := CtxReporting);
    var end := a.(status := Cancelled, pc := Finished(None), reported := a.reported + 1);
    var s1 := s.(agents := s.agents[i := a1]);
    var s2 := s.(agents := s.agents[i := a2]);
    OneStep(s, cap, i, CtxDone, a1);
    OneStep(s1, cap, i, c, a2);
    assert s1.agents[i := a2] == s2.agents;
    OneStep(s2, cap, i, d, end);
    assert s2.agents[i := end] == s.agents[i := end];
    var run := [Run(i, CtxDone), Run(i, c), Run(i, d)];
    assert run[1..] == [run[1], run[2]] && run[1..][1..] == [run[2]] && run[1..][1..][1..] == [];
    assert Exec(s2, cap, [run[2]]) == Exec(s.(agents := s.agents[i := end]), cap, []);
    assert Exec(s1, cap, [run[1], run[2]]) == Exec(s2, cap, [run[2]]);
  }

  /** The goroutine has written how its generation ended. */
  predicate IsDecided(pc: Pc) { pc.Reporting? || pc.Releasing? || (pc.Finished? && pc.outcome.Some?) }

  /** Cancel and CancelAll show every agent as cancelled that has not written an outcome, and touch nothing else:
      neither the outcomes already written, nor any goroutine, nor the semaphore. */
  lemma CancelShows(history: seq<Step>, cap: nat, s: State, i: nat, st: Step)
    requires Exec(INIT, cap, history) == Some(s) && i < |s.agents|
    requires st == CancelAll || st == Cancel(i)
    ensures var s' := Next(s, cap, st).value;
            && Next(s, cap, st).Some? && s'.used == s.used && |s'.agents| == |s.agents|
            && s'.agents[i] == s.agents[i].(status := if IsDecided(s.agents[i].pc) then s.agents[i].status
                                                      else Cancelled)
            && (st.Cancel? ==> forall k :: 0 <= k < |s.agents| && k != i ==> s'.agents[k] == s.agents[k])
  {
    RunKeepsInv(INIT, cap, history);
    assert StatusOk(s.agents[i]);
  }

  /** A run from the start: spawned, running, cancelled, and done all the same. */
  lemma CancelledAgentIsDone(cap: nat) returns (run: seq<Step>, end: State)
    requires 0 < cap
    ensures run == [Spawn, Run(0, Ok), Run(0, Ok), Cancel(0), Run(0, Ok), Run(0, Ok)]
    ensures Exec(INIT, cap, run) == Some(end) && |end.agents| == 1 && end.agents[0].status == Done
  {
    var begin := [Spawn, Run(0, Ok), Run(0, Ok)];
    var running := State([Agent(Running, Generating, 1, 0, 0)], 1);
    run := [Spawn, Run(0, Ok), Run(0, Ok), Cancel(0), Run(0, Ok), Run(0, Ok)];
    AgentStarts(cap, running);
    RunKeepsInv(INIT, cap, begin);
    end := CancelIsOverwritten(running, cap, 0, Ok, Ok);
    var s1 := Next(running, cap, Cancel(0)).value;
    assert run[3..][1..] == [Run(0, Ok), Run(0, Ok)] && run[3..][0] == Cancel(0);
    assert run == begin + run[3..];
    ExecConcat(INIT, cap, begin, run[3..]);
  }

  lemma AgentStarts(cap: nat, running: State)
    requires 0 < cap && running == State([Agent(Running, Generating, 1, 0, 0)], 1)
    ensures Exec(INIT, cap, [Spawn, Run(0, Ok), Run(0, Ok)]) == Some(running)
  {
    var r := Exec(INIT, cap, [Spawn, Run(0, Ok), Run(0, Ok)]).value;
    assert r.agents == running.agents;
  }

  lemma {:induction false} ExecConcat(s: State, cap: nat, a: seq<Step>, b: seq<Step>)
    requires Exec(s, cap, a).Some?
    ensures Exec(s, cap, a + b) == Exec(Exec(s, cap, a).value, cap, b)
    decreases |a|
  {
    if a == [] {
      assert a + b == b;
    } else {
      assert (a + b)[1..] == a[1..] + b;
      ExecConcat(Next(s, cap, a[0]).value, cap, a[1..], b);
    }
  }

  // ---------------------------------------------------------------------------------------------
  // Identifiers
  // ---------------------------------------------------------------------------------------------

  /** The identifier of the agent spawned as number `counter`. */
  function AgentId(counter: nat): string { "bg-" + Pad4(counter) }

  /** Identifiers are distinct for every number of agents, past 9999 too. */
  lemma AgentIdsDiffer(m: nat, n: nat)
    requires m != n
    ensures AgentId(m) != AgentId(n)
  {
    ValueOfPad4(m);
    ValueOfPad4(n);
    assert AgentId(m)[3..] == Pad4(m) && AgentId(n)[3..] == Pad4(n);
  }
}
