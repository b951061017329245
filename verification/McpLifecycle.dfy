/**
 The life of one managed MCP server: Start, the per-process watchdogs, crash recovery, Stop and
 tool calls run as goroutines around a mutex, an atomic `recovering` flag, a `stopCh` that is closed
 once and one `dead` channel per subprocess.  A state holds any number of goroutines; a step runs
 one goroutine up to its next interaction with shared state, lets a subprocess exit, or lets a
 client make a new call.
 */
module McpLifecycle {
  import opened Common

  /** Who called `bootstrap`. */
  datatype Origin = ByStart | ByRecovery

  /** Where a goroutine stands.  `p` is a process, named by its position in `procs`. */
  datatype Pc =
    // Start
    | StartEntry
    // bootstrap, always with the mutex held
    | Boot(origin: Origin)
    | BootStarted(origin: Origin, p: nat)
    | AssignClient(origin: Origin, p: nat)
    | AssignTools(origin: Origin, p: nat)
    | AssignRunning(origin: Origin, p: nat)
    | BootDone(origin: Origin, p: nat)
    | BootFailed(origin: Origin)
    // recoverLocked
    | RecoverEntry
    | RecoverGrab
    | RecoverMark
    | RecoverStop(target: Option<nat>)
    | RecoverSleep
    | RecoverLaunch(next: Option<nat>)
    | RecoverRelease
    // watchdog
    | WatchSelect(p: nat)
    | WatchCheck(p: nat)
    // Stop
    | StopEntry
    | StopLock
    | StopMark
    | StopKill(victim: Option<nat>)
    // CallTool
    | CallEntry
    | CallLock
    | CallSnapshot
    | CallAwait(via: Option<nat>)
    // no further steps
    | Done
    | Crashed

  /** A ProcessManager.  `adoptions` counts its assignments to `s.pm`, `watchers` lists the
      watchdog goroutines launched for it and `creator` is the goroutine that made it. */
  datatype Proc = Proc(creator: nat, started: bool, stopped: bool, dead: bool,
                       adoptions: nat, watchers: seq<nat>)

  /** The server's fields.  `client` and `tools` name the process whose bootstrap made them. */
  datatype Fields = Fields(mu: Option<nat>, pm: Option<nat>, client: Option<nat>, tools: Option<nat>,
                           running: bool, recovering: bool, stopClosed: bool)

  datatype State = State(threads: seq<Pc>, f: Fields, procs: seq<Proc>)

  datatype Choice = Ok | Err | CtxDone

  datatype Step = NewStart | NewStop | NewCall | Die(p: nat) | Run(t: nat, choice: Choice)

  const INIT := State([], Fields(None, None, None, None, false, false, false), [])

  // ---------------------------------------------------------------------------------------------
  // Steps
  // ---------------------------------------------------------------------------------------------

  /** What a goroutine step does to the processes. */
  datatype Edit = Keep | Create(ok: bool) | Stopped(q: Option<nat>) | Adopted(p: nat) | Watched(p: nat)

  /** One step: the goroutine's next position, the fields, the processes and a new goroutine. */
  datatype Effect = Effect(pc: Pc, f: Fields, edit: Edit, spawn: Option<Pc>)

  function Go(pc: Pc, f: Fields): Option<Effect> { Some(Effect(pc, f, Keep, None)) }

  /** `s.mu.Lock()` followed by the position with the lock held; None while another holds it. */
  function Lock(t: nat, pc: Pc, f: Fields): Option<Effect> {
    if f.mu.None? then Go(pc, f.(mu := Some(t))) else None
  }

  /** `go s.watchdog(ctx, pm)`: dereferencing a nil manager is a crash. */
  function Launch(pc: Pc, f: Fields, pm: Option<nat>): Option<Effect> {
    match pm
    case Some(p) => Some(Effect(pc, f, Watched(p), Some(WatchSelect(p))))
    case None => Some(Effect(pc, f, Keep, Some(Crashed)))
  }

  /** The next step of goroutine `t` at `pc`, or None when it is blocked or the choice does not apply. */
  function Act(pc: Pc, t: nat, f: Fields, procs: seq<Proc>, c: Choice): Option<Effect> {
    match pc
    case StartEntry => Lock(t, Boot(ByStart), f)
    case Boot(o) =>
      Some(Effect(if c.Ok? then BootStarted(o, |procs|) else BootFailed(o), f, Create(c.Ok?), None))
    case BootStarted(o, p) =>
      if c.Ok? then Some(Effect(AssignClient(o, p), f.(pm := Some(p)), Adopted(p), None))
      else Some(Effect(BootFailed(o), f, Stopped(Some(p)), None))
    case AssignClient(o, p) => Go(AssignTools(o, p), f.(client := Some(p)))
    case AssignTools(o, p) => Go(AssignRunning(o, p), f.(tools := Some(p)))
    case AssignRunning(o, p) => Go(BootDone(o, p), f.(running := true))
    case BootDone(o, p) =>
      if o.ByStart? then Launch(Done, f.(mu := None), f.pm)
      else Go(RecoverLaunch(f.pm), f.(mu := None))
    case BootFailed(o) => Go(if o.ByStart? then Done else RecoverRelease, f.(mu := None))
    case RecoverEntry =>
      if f.recovering then Go(Done, f) else Go(RecoverGrab, f.(recovering := true))
    case RecoverGrab => Lock(t, RecoverMark, f)
    case RecoverMark => Go(RecoverStop(f.pm), f.(running := false, mu := None))
    case RecoverStop(q) => Some(Effect(RecoverSleep, f, Stopped(q), None))
    case RecoverSleep => Lock(t, Boot(ByRecovery), f)
    case RecoverLaunch(q) => Launch(RecoverRelease, f, q)
    case RecoverRelease => Go(Done, f.(recovering := false))
    case WatchSelect(p) =>
      if c.CtxDone? || (c.Err? && f.stopClosed) then Go(Done, f)
      else if c.Ok? && p < |procs| && procs[p].dead then Go(WatchCheck(p), f)
      else None
    case WatchCheck(_) => Go(if f.stopClosed then Done else RecoverEntry, f)
    case StopEntry => Go(StopLock, f.(stopClosed := true))
    case StopLock => Lock(t, StopMark, f)
    case StopMark => Go(StopKill(f.pm), f.(running := false, mu := None))
    case StopKill(q) => Some(Effect(Done, f, Stopped(q), None))
    case CallEntry => Go(if f.recovering then Done else CallLock, f)
    case CallLock => Lock(t, CallSnapshot, f)
    case CallSnapshot => Go(CallAwait(f.client), f.(mu := None))
    case CallAwait(via) =>
      if via.None? || c.Ok? then Go(Done, f)
      else Some(Effect(Done, f, Keep, Some(RecoverEntry)))
    case Done => None
    case Crashed => None
  }

  /** `t` is the acting goroutine and `n` the number the next new goroutine gets. */
  function Apply(procs: seq<Proc>, e: Edit, t: nat, n: nat): seq<Proc> {
    match e
    case Create(ok) => procs + [Proc(t, ok, false, false, 0, [])]
    case Stopped(Some(p)) =>
      if p < |procs| then procs[p := procs[p].(stopped := true)] else procs
    case Adopted(p) =>
      if p < |procs| then procs[p := procs[p].(adoptions := procs[p].adoptions + 1)] else procs
    case Watched(p) =>
      if p < |procs| then procs[p := procs[p].(watchers := procs[p].watchers + [n])] else procs
    case _ => procs
  }

  function Perform(s: State, t: nat, e: Effect): State
    requires t < |s.threads|
  {
    State(s.threads[t := e.pc] + (if e.spawn.Some? then [e.spawn.value] else []),
          e.f, Apply(s.procs, e.edit, t, |s.threads|))
  }

  function Spawn(s: State, pc: Pc): State { s.(threads := s.threads + [pc]) }

  function Next(s: State, st: Step): Option<State> {
    match st
    case NewStart => Some(Spawn(s, StartEntry))
    case NewStop => Some(Spawn(s, StopEntry))
    case NewCall => Some(Spawn(s, CallEntry))
    case Die(p) =>
      if p < |s.procs| && s.procs[p].started && !s.procs[p].dead then
        Some(s.(procs := s.procs[p := s.procs[p].(dead := true)]))
      else None
    case Run(t, c) =>
      if t >= |s.threads| then None
      else match Act(s.threads[t], t, s.f, s.procs, c)
        case None => None
        case Some(e) => Some(Perform(s, t, e))
  }

  /** A whole run: None when some step was not enabled. */
  function Exec(s: State, run: seq<Step>): Option<State>
    decreases |run|
  {
    if run == [] then Some(s)
    else match Next(s, run[0])
      case None => None
      case Some(s1) => Exec(s1, run[1..])
  }

  lemma {:induction false} ExecSnoc(s: State, run: seq<Step>, st: Step)
    ensures Exec(s, run + [st]) == if Exec(s, run).None? then None else Next(Exec(s, run).value, st)
    decreases |run|
  {
    if run == [] {
      assert run + [st] == [st];
    } else {
      assert (run + [st])[1..] == run[1..] + [st];
      if Next(s, run[0]).Some? {
        ExecSnoc(Next(s, run[0]).value, run[1..], st);
      }
    }
  }

  lemma PrefixRuns(run: seq<Step>, n: nat)
    requires n < |run| && Exec(INIT, run[..n + 1]).Some?
    ensures Exec(INIT, run[..n]).Some?
    ensures Exec(INIT, run[..n + 1]) == Next(Exec(INIT, run[..n]).value, run[n])
  {
    assert run[..n + 1] == run[..n] + [run[n]];
    ExecSnoc(INIT, run[..n], run[n]);
  }

  // ---------------------------------------------------------------------------------------------
  // Safety
  // ---------------------------------------------------------------------------------------------

  predicate HoldsMu(pc: Pc) {
    || pc.Boot? || pc.BootStarted? || pc.AssignClient? || pc.AssignTools? || pc.AssignRunning?
    || pc.BootDone? || pc.BootFailed? || pc.RecoverMark? || pc.StopMark? || pc.CallSnapshot?
  }

  /** Between winning the compare-and-swap and the deferred reset of `recovering`. */
  predicate InRecovery(pc: Pc) {
    || pc.RecoverGrab? || pc.RecoverMark? || pc.RecoverStop? || pc.RecoverSleep?
    || pc.RecoverLaunch? || pc.RecoverRelease?
    || ((pc.Boot? || pc.BootStarted? || pc.AssignClient? || pc.AssignTools? || pc.AssignRunning?
         || pc.BootDone? || pc.BootFailed?) && pc.origin.ByRecovery?)
  }

  function RecoveryCount(pc: Pc): nat { if InRecovery(pc) then 1 else 0 }

  predicate Watches(pc: Pc, p: nat) { pc == WatchSelect(p) || pc == WatchCheck(p) }

  /** The goroutine has adopted process `p` and has not launched its watchdog yet. */
  predicate Owes(pc: Pc, p: nat) {
    || ((pc.AssignClient? || pc.AssignTools? || pc.AssignRunning? || pc.BootDone?) && pc.p == p)
    || pc == RecoverLaunch(Some(p))
  }

  /** What the design notes promise of every reachable state. */
  ghost predicate Safe(s: State) {
    // only one recovery at a time
    && (forall t, u :: 0 <= t < u < |s.threads| ==>
          !(InRecovery(s.threads[t]) && InRecovery(s.threads[u])))
    // mutual exclusion
    && (forall t, u :: 0 <= t < u < |s.threads| ==>
          !(HoldsMu(s.threads[t]) && HoldsMu(s.threads[u])))
    // with the lock free, the three fields come from one bootstrap
    && (s.f.mu.None? ==> s.f.pm == s.f.client == s.f.tools)
    // a server marked as running has a process, and a bootstrap that returns has marked it
    && (s.f.running ==> s.f.pm.Some?)
    && (forall t :: 0 <= t < |s.threads| && s.threads[t].BootDone? ==> s.f.running && s.f.pm.Some?)
    && (forall p :: 0 <= p < |s.procs| ==> WatchedOnce(s, p))
    // a watchdog monitors exactly the process it was launched for
    && (forall t, p: nat :: 0 <= t < |s.threads| && Watches(s.threads[t], p) ==>
          p < |s.procs| && s.procs[p].watchers == [t])
    // no watchdog is launched on a nil manager
    && (forall t :: 0 <= t < |s.threads| ==> s.threads[t] != Crashed)
  }

  /** No manager is adopted twice, none gets two watchdogs, only adopted ones get one, and an
      adopted one has it unless its creator is still on the way to launching it. */
  ghost predicate WatchedOnce(s: State, p: nat)
    requires p < |s.procs|
  {
    var q := s.procs[p];
    && |q.watchers| <= q.adoptions <= 1
    && (q.adoptions == 1 && q.watchers == [] ==>
          q.creator < |s.threads| && Owes(s.threads[q.creator], p))
  }

  ghost predicate LockInv(s: State) {
    && (s.f.mu.Some? ==> s.f.mu.value < |s.threads|)
    && (forall t :: 0 <= t < |s.threads| ==> (HoldsMu(s.threads[t]) <==> s.f.mu == Some(t)))
  }

  ghost predicate RecoveryInv(s: State) {
    Sum(s.threads, RecoveryCount) == if s.f.recovering then 1 else 0
  }

  /** The fields as the lock holder at `pc` has left them; any other position means no holder. */
  ghost predicate FieldsOk(pc: Pc, f: Fields) {
    && (f.running ==> f.pm.Some?)
    && (pc.BootDone? ==> f.running)
    && match pc
       case AssignClient(_, p) => f.pm == Some(p) && f.client == f.tools
       case AssignTools(_, p) => f.pm == f.client == Some(p)
       case AssignRunning(_, p) => f.pm == f.client == f.tools == Some(p)
       case BootDone(_, p) => f.pm == f.client == f.tools == Some(p)
       case _ => f.pm == f.client == f.tools
  }

  function Holder(s: State): Pc {
    if s.f.mu.Some? && s.f.mu.value < |s.threads| then s.threads[s.f.mu.value] else Done
  }

  /** The process a goroutine has created and is not finished with. */
  function Focus(pc: Pc): Option<nat> {
    match pc
    case BootStarted(_, p) => Some(p)
    case AssignClient(_, p) => Some(p)
    case AssignTools(_, p) => Some(p)
    case AssignRunning(_, p) => Some(p)
    case BootDone(_, p) => Some(p)
    case RecoverLaunch(q) => q
    case _ => None
  }

  /** What goroutine `t` may rely on. */
  ghost predicate ThreadOk(s: State, t: nat)
    requires t < |s.threads|
  {
    var pc := s.threads[t];
    && pc != Crashed && pc != RecoverLaunch(None)
    && (Focus(pc).Some? ==>
          Focus(pc).value < |s.procs| && s.procs[Focus(pc).value].creator == t)
    && (pc.WatchSelect? || pc.WatchCheck? ==>
          pc.p < |s.procs| && s.procs[pc.p].watchers == [t])
  }

  /** What is known of a process, from where its creator stands. */
  ghost predicate Standing(q: Proc, pc: Pc, p: nat) {
    if Focus(pc) != Some(p) then q.adoptions == |q.watchers| <= 1
    else q.watchers == [] && q.adoptions == if pc.BootStarted? then 0 else 1
  }

  ghost predicate ProcOk(s: State, p: nat)
    requires p < |s.procs|
  {
    && s.procs[p].creator < |s.threads|
    && Standing(s.procs[p], s.threads[s.procs[p].creator], p)
  }

  ghost predicate Inv(s: State) {
    && LockInv(s)
    && RecoveryInv(s)
    && FieldsOk(Holder(s), s.f)
    && (forall t :: 0 <= t < |s.threads| ==> ThreadOk(s, t))
    && (forall p :: 0 <= p < |s.procs| ==> ProcOk(s, p))
  }

  // The case analysis over positions is done on `Act` alone, without quantifiers.

  /** The lock changes hands only through its own acquire and release. */
  lemma ActPassesLock(pc: Pc, t: nat, f: Fields, procs: seq<Proc>, c: Choice)
    requires Act(pc, t, f, procs, c).Some?
    requires HoldsMu(pc) <==> f.mu == Some(t)
    ensures var e := Act(pc, t, f, procs, c).value;
            && (if HoldsMu(e.pc) then e.f.mu == Some(t) && (HoldsMu(pc) || f.mu.None?)
                else if HoldsMu(pc) then e.f.mu.None?
                else e.f.mu == f.mu)
            && (e.spawn.Some? ==> !HoldsMu(e.spawn.value) && !InRecovery(e.spawn.value))
  {
  }

  /** Fields are written only under the lock, and a bootstrap writes all three. */
  lemma ActKeepsFields(pc: Pc, t: nat, f: Fields, procs: seq<Proc>, c: Choice)
    requires Act(pc, t, f, procs, c).Some?
    requires HoldsMu(pc) ==> FieldsOk(pc, f)
    requires !HoldsMu(pc) && f.mu.None? ==> FieldsOk(Done, f)
    ensures var e := Act(pc, t, f, procs, c).value;
            && (HoldsMu(e.pc) ==> FieldsOk(e.pc, e.f))
            && (HoldsMu(pc) && !HoldsMu(e.pc) ==> FieldsOk(Done, e.f))
            && (!HoldsMu(pc) ==>
                  e.f.pm == f.pm && e.f.client == f.client && e.f.tools == f.tools && e.f.running == f.running)
  {
  }

  /** The flag and the number of goroutines in recovery move together. */
  lemma ActTogglesRecovering(pc: Pc, t: nat, f: Fields, procs: seq<Proc>, c: Choice)
    requires Act(pc, t, f, procs, c).Some?
    requires InRecovery(pc) ==> f.recovering
    ensures var e := Act(pc, t, f, procs, c).value;
            (if e.f.recovering then 1 else 0) - (if f.recovering then 1 else 0)
            == RecoveryCount(e.pc) - RecoveryCount(pc)
  {
  }

  /** A goroutine works on one process, the one it created, and launches its watchdog once. */
  lemma ActKeepsFocus(pc: Pc, t: nat, f: Fields, procs: seq<Proc>, c: Choice)
    requires Act(pc, t, f, procs, c).Some?
    requires HoldsMu(pc) ==> FieldsOk(pc, f)
    requires pc != RecoverLaunch(None)
    ensures var e := Act(pc, t, f, procs, c).value;
            match e.edit
            case Create(ok) => Focus(pc) == None && Focus(e.pc) == if ok then Some(|procs|) else None
            case Adopted(p) => pc.BootStarted? && pc.p == p
                               && Focus(e.pc) == Some(p) && !e.pc.BootStarted?
            case Watched(p) => Focus(pc) == Some(p) && !pc.BootStarted? && Focus(e.pc) == None
            case Stopped(_) => Focus(e.pc) == None && (Focus(pc).None? || pc.BootStarted?)
            case Keep => Focus(e.pc) == Focus(pc) && !pc.BootStarted? && !e.pc.BootStarted?
  {
  }

  /** No goroutine comes to launch a watchdog on nil, and a watchdog keeps to its process. */
  lemma ActStaysOnCourse(pc: Pc, t: nat, f: Fields, procs: seq<Proc>, c: Choice)
    requires Act(pc, t, f, procs, c).Some?
    requires HoldsMu(pc) ==> FieldsOk(pc, f)
    ensures var e := Act(pc, t, f, procs, c).value;
            && e.pc != Crashed && e.pc != RecoverLaunch(None)
            && (e.pc.WatchSelect? || e.pc.WatchCheck? ==> Watches(pc, e.pc.p))
  {
  }

  /** New goroutines are watchdogs of the process just bootstrapped, or recoveries. */
  lemma ActSpawns(pc: Pc, t: nat, f: Fields, procs: seq<Proc>, c: Choice)
    requires Act(pc, t, f, procs, c).Some?
    requires HoldsMu(pc) ==> FieldsOk(pc, f)
    requires pc != RecoverLaunch(None)
    ensures var e := Act(pc, t, f, procs, c).value;
            e.spawn == if e.edit.Watched? then Some(WatchSelect(e.edit.p))
                       else if e.spawn.Some? then Some(RecoverEntry) else None
  {
  }

  lemma {:induction false} SumPerform(s: State, t: nat, e: Effect, w: Pc -> nat)
    requires t < |s.threads|
    ensures Sum(Perform(s, t, e).threads, w) ==
            Sum(s.threads, w) - w(s.threads[t]) + w(e.pc)
            + (if e.spawn.Some? then w(e.spawn.value) else 0)
  {
    SumUpdate(s.threads, t, e.pc, w);
    if e.spawn.Some? {
      SumAppend(s.threads[t := e.pc], e.spawn.value, w);
    } else {
      assert Perform(s, t, e).threads == s.threads[t := e.pc];
    }
  }

  lemma PerformPassesLock(s: State, t: nat, e: Effect)
    requires LockInv(s) && FieldsOk(Holder(s), s.f) && t < |s.threads|
    requires if HoldsMu(e.pc) then e.f.mu == Some(t) && (HoldsMu(s.threads[t]) || s.f.mu.None?)
             else if HoldsMu(s.threads[t]) then e.f.mu.None?
             else e.f.mu == s.f.mu
    requires e.spawn.Some? ==> !HoldsMu(e.spawn.value)
    requires HoldsMu(e.pc) ==> FieldsOk(e.pc, e.f)
    requires HoldsMu(s.threads[t]) && !HoldsMu(e.pc) ==> FieldsOk(Done, e.f)
    requires !HoldsMu(s.threads[t]) ==>
               && e.f.pm == s.f.pm && e.f.client == s.f.client && e.f.tools == s.f.tools
               && e.f.running == s.f.running
    ensures LockInv(Perform(s, t, e))
    ensures FieldsOk(Holder(Perform(s, t, e)), Perform(s, t, e).f)
  {
    var s' := Perform(s, t, e);
    forall u | 0 <= u < |s'.threads|
      ensures HoldsMu(s'.threads[u]) <==> s'.f.mu == Some(u)
    {
      assert u < |s.threads| && u != t ==> s'.threads[u] == s.threads[u];
    }
    assert !HoldsMu(s.threads[t]) && s.f.mu.None? ==> Holder(s) == Done;
  }

  /** Edits outside the goroutine's focus leave the history of every other process alone. */
  lemma PerformKeepsThreads(s: State, t: nat, e: Effect)
    requires t < |s.threads| && (forall u :: 0 <= u < |s.threads| ==> ThreadOk(s, u))
    requires forall p :: 0 <= p < |s.procs| ==> ProcOk(s, p)
    requires e.pc != Crashed && e.pc != RecoverLaunch(None)
    requires e.pc.WatchSelect? || e.pc.WatchCheck? ==> Watches(s.threads[t], e.pc.p)
    requires Focus(e.pc).Some? ==>
               Focus(e.pc) == Focus(s.threads[t]) || (e.edit == Create(true) && Focus(e.pc) == Some(|s.procs|))
    requires e.edit.Watched? ==> Focus(s.threads[t]) == Some(e.edit.p)
    requires e.spawn.Some? ==>
               if e.edit.Watched? then e.spawn == Some(WatchSelect(e.edit.p)) else e.spawn == Some(RecoverEntry)
    ensures var s' := Perform(s, t, e); forall u :: 0 <= u < |s'.threads| ==> ThreadOk(s', u)
  {
    var s' := Perform(s, t, e);
    assert ThreadOk(s, t);
    assert e.edit.Watched? ==> ProcOk(s, e.edit.p);
    forall u | 0 <= u < |s'.threads|
      ensures ThreadOk(s', u)
    {
      if u < |s.threads| {
        assert ThreadOk(s, u);
        assert u != t ==> s'.threads[u] == s.threads[u];
      }
    }
  }

  lemma PerformKeepsProcs(s: State, t: nat, e: Effect, c: Choice)
    requires t < |s.threads| && ThreadOk(s, t) && (HoldsMu(s.threads[t]) ==> FieldsOk(s.threads[t], s.f))
    requires forall p :: 0 <= p < |s.procs| ==> ProcOk(s, p)
    requires Act(s.threads[t], t, s.f, s.procs, c) == Some(e)
    ensures var s' := Perform(s, t, e); forall p :: 0 <= p < |s'.procs| ==> ProcOk(s', p)
  {
    ActKeepsFocus(s.threads[t], t, s.f, s.procs, c);
    ActSpawns(s.threads[t], t, s.f, s.procs, c);
    var s' := Perform(s, t, e);
    forall p | 0 <= p < |s'.procs|
      ensures ProcOk(s', p)
    {
      if p < |s.procs| {
        assert ProcOk(s, p);
        var u := s.procs[p].creator;
        assert u != t ==> s'.threads[u] == s.threads[u];
      }
    }
  }

  lemma ThreadStepKeepsInv(s: State, t: nat, c: Choice)
    requires Inv(s) && t < |s.threads| && Act(s.threads[t], t, s.f, s.procs, c).Some?
    ensures Inv(Perform(s, t, Act(s.threads[t], t, s.f, s.procs, c).value))
  {
    var pc := s.threads[t];
    var e := Act(pc, t, s.f, s.procs, c).value;
    assert ThreadOk(s, t) && (HoldsMu(pc) <==> s.f.mu == Some(t));
    var s' := Perform(s, t, e);
    assert LockInv(s') && FieldsOk(Holder(s'), s'.f) by {
      ActPassesLock(pc, t, s.f, s.procs, c);
      ActKeepsFields(pc, t, s.f, s.procs, c);
      PerformPassesLock(s, t, e);
    }
    assert RecoveryInv(s') by {
      SumAtLeast(s.threads, t, RecoveryCount);
      ActTogglesRecovering(pc, t, s.f, s.procs, c);
      ActPassesLock(pc, t, s.f, s.procs, c);
      SumPerform(s, t, e, RecoveryCount);
    }
    assert forall u :: 0 <= u < |s'.threads| ==> ThreadOk(s', u) by {
      ActKeepsFocus(pc, t, s.f, s.procs, c);
      ActStaysOnCourse(pc, t, s.f, s.procs, c);
      ActSpawns(pc, t, s.f, s.procs, c);
      PerformKeepsThreads(s, t, e);
    }
    PerformKeepsProcs(s, t, e, c);
  }

  lemma SameHistoryKeepsOk(s: State, s': State)
    requires forall u :: 0 <= u < |s.threads| ==> ThreadOk(s, u)
    requires forall p :: 0 <= p < |s.procs| ==> ProcOk(s, p)
    requires s.threads <= s'.threads && |s.procs| == |s'.procs|
    requires forall u :: |s.threads| <= u < |s'.threads| ==>
               s'.threads[u] == StartEntry || s'.threads[u] == StopEntry || s'.threads[u] == CallEntry
    requires forall p :: 0 <= p < |s.procs| ==>
               && s'.procs[p].creator == s.procs[p].creator
               && s'.procs[p].adoptions == s.procs[p].adoptions
               && s'.procs[p].watchers == s.procs[p].watchers
    ensures forall u :: 0 <= u < |s'.threads| ==> ThreadOk(s', u)
    ensures forall p :: 0 <= p < |s'.procs| ==> ProcOk(s', p)
  {
    forall u | 0 <= u < |s'.threads|
      ensures ThreadOk(s', u)
    {
      assert u < |s.threads| ==> ThreadOk(s, u);
    }
    forall p | 0 <= p < |s'.procs|
      ensures ProcOk(s', p)
    {
      assert ProcOk(s, p);
    }
  }

  /** A new call disturbs nobody. */
  lemma SpawnKeepsInv(s: State, pc: Pc)
    requires Inv(s) && (pc == StartEntry || pc == StopEntry || pc == CallEntry)
    ensures Inv(Spawn(s, pc))
  {
    var s' := Spawn(s, pc);
    assert RecoveryInv(s') by { SumAppend(s.threads, pc, RecoveryCount); }
    SpawnKeepsLock(s, pc);
    SameHistoryKeepsOk(s, s');
  }

  lemma SpawnKeepsLock(s: State, pc: Pc)
    requires LockInv(s) && !HoldsMu(pc)
    ensures LockInv(Spawn(s, pc)) && Holder(Spawn(s, pc)) == Holder(s)
  {
    var s' := Spawn(s, pc);
    forall t | 0 <= t < |s'.threads|
      ensures HoldsMu(s'.threads[t]) <==> s'.f.mu == Some(t)
    {
      assert t < |s.threads| ==> s'.threads[t] == s.threads[t];
    }
  }

  lemma DieKeepsInv(s: State, p: nat)
    requires Inv(s) && Next(s, Die(p)).Some?
    ensures Inv(Next(s, Die(p)).value)
  {
    SameHistoryKeepsOk(s, Next(s, Die(p)).value);
  }

  lemma StepKeepsInv(s: State, st: Step, s': State)
    requires Inv(s) && Next(s, st) == Some(s')
    ensures Inv(s')
  {
    match st {
      case Run(t, c) => ThreadStepKeepsInv(s, t, c);
      case Die(p) => DieKeepsInv(s, p);
      case NewStart => SpawnKeepsInv(s, StartEntry);
      case NewStop => SpawnKeepsInv(s, StopEntry);
      case NewCall => SpawnKeepsInv(s, CallEntry);
    }
  }

  lemma {:induction false} RunKeepsInv(s: State, run: seq<Step>)
    requires Inv(s) && Exec(s, run).Some?
    ensures Inv(Exec(s, run).value)
    decreases |run|
  {
    if run != [] {
      var s1 := Next(s, run[0]).value;
      StepKeepsInv(s, run[0], s1);
      RunKeepsInv(s1, run[1..]);
    }
  }

  lemma InvIsSafe(s: State)
    requires Inv(s)
    ensures Safe(s)
  {
    forall t, u | 0 <= t < u < |s.threads|
      ensures !(InRecovery(s.threads[t]) && InRecovery(s.threads[u]))
    {
      SumAtLeastTwo(s.threads, t, u, RecoveryCount);
    }
    forall p | 0 <= p < |s.procs|
      ensures WatchedOnce(s, p)
    {
      assert ProcOk(s, p) && (s.procs[p].creator < |s.threads| ==> ThreadOk(s, s.procs[p].creator));
    }
    forall t | 0 <= t < |s.threads| && s.threads[t].BootDone?
      ensures s.f.running && s.f.pm.Some?
    {
      assert HoldsMu(s.threads[t]) && s.f.mu == Some(t);
    }
    forall t | 0 <= t < |s.threads|
      ensures s.threads[t] != Crashed
      ensures forall p: nat :: Watches(s.threads[t], p) ==> p < |s.procs| && s.procs[p].watchers == [t]
    {
      assert ThreadOk(s, t);
    }
  }

  /** Every state of every run is safe. */
  lemma EveryRunIsSafe(run: seq<Step>)
    requires Exec(INIT, run).Some?
    ensures Safe(Exec(INIT, run).value)
  {
    RunKeepsInv(INIT, run);
    InvIsSafe(Exec(INIT, run).value);
  }

  // ---------------------------------------------------------------------------------------------
  // Concrete runs
  // ---------------------------------------------------------------------------------------------

  lemma {:induction false} ExecConcat(s: State, a: seq<Step>, b: seq<Step>)
    requires Exec(s, a).Some?
    ensures Exec(s, a + b) == Exec(Exec(s, a).value, b)
    decreases |a|
  {
    if a == [] {
      assert a + b == b;
    } else {
      assert (a + b)[1..] == a[1..] + b;
      ExecConcat(Next(s, a[0]).value, a[1..], b);
    }
  }

  function Twice(t: nat): seq<Step> { [Run(t, Ok), Run(t, Ok)] }

  function FourTimes(t: nat): seq<Step> { Twice(t) + Twice(t) }

  /** One successful Start from the initial state: goroutine 1 is the watchdog of process 0. */
  const STARTED := State([Done, WatchSelect(0)],
                         Fields(None, Some(0), Some(0), Some(0), true, false, false),
                         [Proc(0, true, false, false, 1, [1])])

  const START_RUN := [NewStart, Run(0, Ok), Run(0, Ok), Run(0, Ok)]
                    + [Run(0, Ok), Run(0, Ok), Run(0, Ok), Run(0, Ok)]

  lemma StartSucceeds()
    ensures Exec(INIT, START_RUN) == Some(STARTED)
  {
    var s := State([AssignClient(ByStart, 0)], INIT.f.(mu := Some(0), pm := Some(0)),
                   [Proc(0, true, false, false, 1, [])]);
    StartCreates(s);
    StartAssigns(s);
    ExecConcat(INIT, [NewStart, Run(0, Ok), Run(0, Ok), Run(0, Ok)],
               [Run(0, Ok), Run(0, Ok), Run(0, Ok), Run(0, Ok)]);
  }

  lemma StartCreates(s: State)
    requires s == State([AssignClient(ByStart, 0)], INIT.f.(mu := Some(0), pm := Some(0)),
                        [Proc(0, true, false, false, 1, [])])
    ensures Exec(INIT, [NewStart, Run(0, Ok), Run(0, Ok), Run(0, Ok)]) == Some(s)
  {
    var r := Exec(INIT, [NewStart, Run(0, Ok), Run(0, Ok), Run(0, Ok)]).value;
    assert r.threads == s.threads && r.procs == s.procs;
  }

  lemma StartAssigns(s: State)
    requires s == State([AssignClient(ByStart, 0)], INIT.f.(mu := Some(0), pm := Some(0)),
                        [Proc(0, true, false, false, 1, [])])
    ensures Exec(s, [Run(0, Ok), Run(0, Ok), Run(0, Ok), Run(0, Ok)]) == Some(STARTED)
  {
    var r := Exec(s, [Run(0, Ok), Run(0, Ok), Run(0, Ok), Run(0, Ok)]).value;
    assert r.procs[0].watchers == [1];
    assert r.threads == STARTED.threads && r.procs == STARTED.procs;
  }
}
