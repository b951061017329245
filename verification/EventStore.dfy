/**
 The event store: an append-only log, a state rebuilt from it by replay, a snapshot after every hundredth
 event, and a purge of old events.  A payload of the wrong type makes the replay panic.
 */
module EventStore {
  import opened Common
  import opened Decimal

  datatype Value = Nil | Num(amount: real) | Str(text: string) | Stamp(time: int) | Flag(on: bool)

  datatype Event = Event(id: string, kind: string, timestamp: int, data: map<string, Value>, source: string)

  type State = map<string, Value>

  datatype Snapshot = Snapshot(timestamp: int, eventId: string, state: State)

  // ---------------------------------------------------------------------------------------------
  // Replay
  // ---------------------------------------------------------------------------------------------

  /** Looking up a missing key gives nil. */
  function Field(e: Event, key: string): Value { if key in e.data then e.data[key] else Nil }

  /** One event; None is the panic of a failed type assertion. */
  function ApplyEvent(s: State, e: Event): Option<State> {
    if e.kind == "session.created" then
      Some(s["session_id" := Field(e, "session_id")]["start_time" := Field(e, "start_time")])
    else if e.kind == "budget.deducted" then
      var amount := Field(e, "amount");
      if !amount.Num? then None
      else if "total_spent" in s && s["total_spent"].Num? then
        Some(s["total_spent" := Num(s["total_spent"].amount + amount.amount)])
      else Some(s["total_spent" := amount])
    else if e.kind == "tool.executed" then
      Some(s["last_tool" := Field(e, "tool_name")]["last_execution" := Stamp(e.timestamp)])
    else if e.kind == "provider.selected" then Some(s["provider" := Field(e, "provider_name")])
    else if e.kind == "session.closed" then Some(s["session_active" := Flag(false)])
    else Some(s)
  }

  function Replay(s: State, events: seq<Event>): Option<State>
    decreases |events|
  {
    if events == [] then Some(s)
    else match ApplyEvent(s, events[0])
      case None => None
      case Some(s1) => Replay(s1, events[1..])
  }

  /** Replaying in two parts is replaying once. */
  lemma {:induction false} ReplayConcat(s: State, a: seq<Event>, b: seq<Event>)
    ensures Replay(s, a + b) == match Replay(s, a) case None => None case Some(s1) => Replay(s1, b)
    decreases |a|
  {
    if a == [] {
      assert a + b == b;
    } else {
      assert (a + b)[1..] == a[1..] + b;
      match ApplyEvent(s, a[0]) {
        case None =>
        case Some(s1) => ReplayConcat(s1, a[1..], b);
      }
    }
  }

  lemma ReplaySnoc(s: State, events: seq<Event>, e: Event)
    ensures Replay(s, events + [e]) == match Replay(s, events) case None => None case Some(s1) => ApplyEvent(s1, e)
  {
    ReplayConcat(s, events, [e]);
    assert [e][1..] == [];
    match Replay(s, events) {
      case None =>
      case Some(s1) => assert ApplyEvent(s1, e).Some? ==> Replay(ApplyEvent(s1, e).value, []) == ApplyEvent(s1, e);
    }
  }

  // What has been spent.

  predicate IsDeduction(e: Event) { e.kind == "budget.deducted" }

  function Deducted(events: seq<Event>): real {
    if events == [] then 0.0
    else (if IsDeduction(events[0]) && Field(events[0], "amount").Num? then Field(events[0], "amount").amount else 0.0)
         + Deducted(events[1..])
  }

  /** The running total in a state. */
  function Spent(s: State): real {
    if "total_spent" in s && s["total_spent"].Num? then s["total_spent"].amount else 0.0
  }

  lemma {:induction false} ReplayConservesSpending(s: State, events: seq<Event>)
    requires Replay(s, events).Some?
    ensures Spent(Replay(s, events).value) == Spent(s) + Deducted(events)
    decreases |events|
  {
    if events != [] {
      ReplayConservesSpending(ApplyEvent(s, events[0]).value, events[1..]);
    }
  }

  /** The replay goes through exactly when every deduction carries a number. */
  lemma {:induction false} ReplaySucceedsIff(s: State, events: seq<Event>)
    ensures Replay(s, events).Some? <==>
            forall i :: 0 <= i < |events| && IsDeduction(events[i]) ==> Field(events[i], "amount").Num?
    decreases |events|
  {
    if events != [] {
      assert ApplyEvent(s, events[0]).None? <==> IsDeduction(events[0]) && !Field(events[0], "amount").Num?;
      if ApplyEvent(s, events[0]).Some? {
        ReplaySucceedsIff(ApplyEvent(s, events[0]).value, events[1..]);
        assert forall i :: 1 <= i < |events| ==> events[i] == events[1..][i - 1];
        assert forall i :: 0 <= i < |events[1..]| ==> events[1..][i] == events[i + 1];
      }
    }
  }

  /** The state before the last event, and that event. */
  lemma ReplayBefore(events: seq<Event>, s: State) returns (before: State, init: seq<Event>, e: Event)
    requires events != [] && Replay(map[], events) == Some(s)
    ensures init == events[..|events| - 1] && e == events[|events| - 1] && events == init + [e]
    ensures Replay(map[], init) == Some(before) && ApplyEvent(before, e) == Some(s)
  {
    init, e := events[..|events| - 1], events[|events| - 1];
    assert events == init + [e];
    ReplaySnoc(map[], init, e);
    before := Replay(map[], init).value;
  }

  // What the other keys hold.

  /** Position `i` holds the last event of this kind. */
  ghost predicate IsLast(events: seq<Event>, kind: string, i: nat) {
    && i < |events| && events[i].kind == kind
    && forall j :: i < j < |events| ==> events[j].kind != kind
  }

  ghost predicate Occurs(events: seq<Event>, kind: string) {
    exists i :: 0 <= i < |events| && events[i].kind == kind
  }

  /** `key` holds what the last event of the kind gives, and is absent when there is none. */
  ghost predicate HoldsLast(events: seq<Event>, s: State, key: string, kind: string, gives: Event -> Value) {
    && (key in s <==> Occurs(events, kind))
    && forall i: nat :: IsLast(events, kind, i) ==> key in s && s[key] == gives(events[i])
  }

  /** The entry of an event's data under `name`; nil when there is none. */
  function Datum(name: string): Event -> Value { (e: Event) => if name in e.data then e.data[name] else Nil }

  function TimeOf(): Event -> Value { (e: Event) => Stamp(e.timestamp) }

  function Off(): Event -> Value { (e: Event) => Flag(false) }

  lemma OccursSnoc(events: seq<Event>, e: Event, kind: string)
    ensures Occurs(events + [e], kind) <==> Occurs(events, kind) || e.kind == kind
  {
    var all := events + [e];
    assert all[|events|] == e;
    if Occurs(events, kind) {
      var i :| 0 <= i < |events| && events[i].kind == kind;
      assert all[i].kind == kind;
    }
  }

  lemma LastSnoc(events: seq<Event>, e: Event, kind: string, i: nat)
    requires IsLast(events + [e], kind, i)
    ensures if e.kind == kind then i == |events| else IsLast(events, kind, i)
  {
    var all := events + [e];
    assert all[|events|] == e;
    assert forall j :: 0 <= j < |events| ==> all[j] == events[j];
  }

  /** One event sets `key` when it is of the kind, and leaves it alone otherwise. */
  ghost predicate Sets(s: State, e: Event, s': State, key: string, kind: string, gives: Event -> Value) {
    if e.kind == kind then key in s' && s'[key] == gives(e)
    else (key in s' <==> key in s) && (key in s ==> s'[key] == s[key])
  }

  lemma HoldsLastStep(events: seq<Event>, e: Event, s: State, s': State, key: string, kind: string,
                      gives: Event -> Value)
    requires HoldsLast(events, s, key, kind, gives) && Sets(s, e, s', key, kind, gives)
    ensures HoldsLast(events + [e], s', key, kind, gives)
  {
    OccursSnoc(events, e, kind);
    forall i: nat | IsLast(events + [e], kind, i)
      ensures key in s' && s'[key] == gives((events + [e])[i])
    {
      LastSnoc(events, e, kind, i);
    }
  }

  const STATE_KEYS := {"session_id", "start_time", "total_spent", "last_tool", "last_execution", "provider",
                       "session_active"}

  ghost predicate HoldsTotal(events: seq<Event>, s: State) {
    && ("total_spent" in s <==> Occurs(events, "budget.deducted"))
    && ("total_spent" in s ==> s["total_spent"].Num?)
  }

  lemma SessionIsSet(s: State, e: Event, s': State)
    requires ApplyEvent(s, e) == Some(s')
    ensures Sets(s, e, s', "session_id", "session.created", Datum("session_id"))
    ensures Sets(s, e, s', "start_time", "session.created", Datum("start_time"))
    ensures Sets(s, e, s', "session_active", "session.closed", Off())
  {
  }

  lemma ToolAndProviderAreSet(s: State, e: Event, s': State)
    requires ApplyEvent(s, e) == Some(s')
    ensures Sets(s, e, s', "last_tool", "tool.executed", Datum("tool_name"))
    ensures Sets(s, e, s', "last_execution", "tool.executed", TimeOf())
    ensures Sets(s, e, s', "provider", "provider.selected", Datum("provider_name"))
  {
  }

  /** The session's keys come from the last session.created and session.closed events. */
  lemma {:induction false} SessionIsLast(events: seq<Event>, s: State)
    requires Replay(map[], events) == Some(s)
    ensures HoldsLast(events, s, "session_id", "session.created", Datum("session_id"))
    ensures HoldsLast(events, s, "start_time", "session.created", Datum("start_time"))
    ensures HoldsLast(events, s, "session_active", "session.closed", Off())
    decreases |events|
  {
    if events != [] {
      var before, init, e := ReplayBefore(events, s);
      SessionIsLast(init, before);
      SessionIsSet(before, e, s);
      HoldsLastStep(init, e, before, s, "session_id", "session.created", Datum("session_id"));
      HoldsLastStep(init, e, before, s, "start_time", "session.created", Datum("start_time"));
      HoldsLastStep(init, e, before, s, "session_active", "session.closed", Off());
    }
  }

  /** Tool and provider are those of the last tool.executed and provider.selected events. */
  lemma {:induction false} ToolAndProviderAreLast(events: seq<Event>, s: State)
    requires Replay(map[], events) == Some(s)
    ensures HoldsLast(events, s, "last_tool", "tool.executed", Datum("tool_name"))
    ensures HoldsLast(events, s, "last_execution", "tool.executed", TimeOf())
    ensures HoldsLast(events, s, "provider", "provider.selected", Datum("provider_name"))
    decreases |events|
  {
    if events != [] {
      var before, init, e := ReplayBefore(events, s);
      ToolAndProviderAreLast(init, before);
      ToolAndProviderAreSet(before, e, s);
      HoldsLastStep(init, e, before, s, "last_tool", "tool.executed", Datum("tool_name"));
      HoldsLastStep(init, e, before, s, "last_execution", "tool.executed", TimeOf());
      HoldsLastStep(init, e, before, s, "provider", "provider.selected", Datum("provider_name"));
    }
  }

  /** There is a total exactly when something was deducted, and no other key is ever set. */
  lemma {:induction false} NoOtherKeys(events: seq<Event>, s: State)
    requires Replay(map[], events) == Some(s)
    ensures HoldsTotal(events, s) && s.Keys <= STATE_KEYS
    decreases |events|
  {
    if events != [] {
      var before, init, e := ReplayBefore(events, s);
      NoOtherKeys(init, before);
      OccursSnoc(init, e, "budget.deducted");
    }
  }

  // ---------------------------------------------------------------------------------------------
  // The store
  // ---------------------------------------------------------------------------------------------

  const FREQ := 100

  function EventId(time: int, count: nat): string { "evt-" + DecInt(time) + "-" + Dec(count) }

  datatype Store = Store(events: seq<Event>, snapshots: map<string, Snapshot>, eventCount: nat)

  /** An Append with its three clock readings, or a Purge with its cutoff. */
  datatype Op =
    | Append(kind: string, data: map<string, Value>, source: string, idTime: int, now: int, snapTime: int)
    | Purge(cutoff: int)

  function NewEvent(s: Store, op: Op): Event
    requires op.Append?
  {
    Event(EventId(op.idTime, s.eventCount), op.kind, op.now, op.data, op.source)
  }

  function Recent(events: seq<Event>, cutoff: int): seq<Event> {
    if events == [] then []
    else Recent(events[..|events| - 1], cutoff)
         + (if events[|events| - 1].timestamp >= cutoff then [events[|events| - 1]] else [])
  }

  /** The positions of the events at or after the cutoff. */
  ghost function RecentAt(events: seq<Event>, cutoff: int): set<nat> {
    set i: nat | i < |events| && events[i].timestamp >= cutoff
  }

  lemma RecentAdvances(events: seq<Event>, cutoff: int, n: nat)
    requires n < |events|
    ensures Advances(events, n, RecentAt(events[..n], cutoff), Recent(events[..n], cutoff),
                     RecentAt(events[..n + 1], cutoff), Recent(events[..n + 1], cutoff))
  {
    assert events[..n + 1][..n] == events[..n];
    assert RecentAt(events[..n + 1], cutoff)
        == RecentAt(events[..n], cutoff) + if events[n].timestamp >= cutoff then {n} else {};
  }

  lemma {:induction false} RecentArePicked(events: seq<Event>, cutoff: int, n: nat) returns (picks: seq<nat>)
    requires n <= |events|
    ensures ArePicked(events, RecentAt(events[..n], cutoff), picks, Recent(events[..n], cutoff))
  {
    if n == 0 {
      picks := [];
    } else {
      var before := RecentArePicked(events, cutoff, n - 1);
      RecentAdvances(events, cutoff, n - 1);
      picks := PickStep(events, n - 1, RecentAt(events[..n - 1], cutoff), before, Recent(events[..n - 1], cutoff),
                        RecentAt(events[..n], cutoff), Recent(events[..n], cutoff));
    }
  }

  /** The snapshots once `e` is in the log: every hundredth event adds one, unless the replay panics. */
  function Snapshots(s: Store, e: Event, snapTime: int): map<string, Snapshot> {
    var state := Replay(map[], s.events + [e]);
    if (s.eventCount + 1) % FREQ == 0 && state.Some? then
      s.snapshots[e.id := Snapshot(snapTime, e.id, state.value)]
    else s.snapshots
  }

  function Next(s: Store, op: Op): Store {
    match op
    case Purge(cutoff) => s.(events := Recent(s.events, cutoff))
    case Append(_, _, _, _, _, snapTime) =>
      var e := NewEvent(s, op);
      Store(s.events + [e], Snapshots(s, e, snapTime), s.eventCount + 1)
  }

  /** A purge keeps exactly the events at or after the cutoff, in their order. */
  lemma PurgeKeepsRecent(s: Store, cutoff: int) returns (picks: seq<nat>)
    ensures var s' := Next(s, Purge(cutoff));
            && ArePicked(s.events, RecentAt(s.events, cutoff), picks, s'.events)
            && s'.eventCount == s.eventCount && s'.snapshots == s.snapshots
  {
    assert s.events[..|s.events|] == s.events;
    picks := RecentArePicked(s.events, cutoff, |s.events|);
  }

  class Log {
    var events: seq<Event>
    var snapshots: map<string, Snapshot>
    var eventCount: nat

    ghost function Contents(): Store
      reads this
    {
      Store(events, snapshots, eventCount)
    }

    constructor ()
      ensures Contents() == Store([], map[], 0)
    {
      events, snapshots, eventCount := [], map[], 0;
    }

    /** None stands for a panic. */
    method ReconstructState() returns (r: Option<State>)
      ensures r == Replay(map[], events)
    {
      var state: State := map[];
      for i := 0 to |events|
        invariant Replay(map[], events[..i]) == Some(state)
      {
        assert events[..i + 1] == events[..i] + [events[i]];
        ReplaySnoc(map[], events[..i], events[i]);
        assert events == events[..i + 1] + events[i + 1..];
        ReplayConcat(map[], events[..i + 1], events[i + 1..]);
        var event := events[i];
        if event.kind == "session.created" {
          state := state["session_id" := Field(event, "session_id")];
          state := state["start_time" := Field(event, "start_time")];
        } else if event.kind == "budget.deducted" {
          var amount := Field(event, "amount");
          if !amount.Num? {
            return None;
          }
          if "total_spent" in state && state["total_spent"].Num? {
            state := state["total_spent" := Num(state["total_spent"].amount + amount.amount)];
          } else {
            state := state["total_spent" := amount];
          }
        } else if event.kind == "tool.executed" {
          state := state["last_tool" := Field(event, "tool_name")];
          state := state["last_execution" := Stamp(event.timestamp)];
        } else if event.kind == "provider.selected" {
          state := state["provider" := Field(event, "provider_name")];
        } else if event.kind == "session.closed" {
          state := state["session_active" := Flag(false)];
        }
      }
      assert events[..|events|] == events;
      return Some(state);
    }

    /** `ok` is false when the snapshot panics; the event is in the log by then. */
    method Append(kind: string, data: map<string, Value>, source: string, idTime: int, now: int, snapTime: int)
      returns (event: Event, ok: bool)
      modifies this
      ensures Contents() == Next(old(Contents()), Op.Append(kind, data, source, idTime, now, snapTime))
      ensures events == old(events) + [event] && eventCount == old(eventCount) + 1
      ensures event == Event("evt-" + DecInt(idTime) + "-" + Dec(old(eventCount)), kind, now, data, source)
      ensures ok <==> eventCount % 100 != 0 || Replay(map[], events).Some?
      ensures snapshots == if ok && eventCount % 100 == 0 then
                             old(snapshots)[event.id := Snapshot(snapTime, event.id, Replay(map[], events).value)]
                           else old(snapshots)
    {
      event := Event(EventId(idTime, eventCount), kind, now, data, source);
      events := events + [event];
      eventCount := eventCount + 1;
      ok := true;
      if eventCount % FREQ == 0 {
        var state := ReconstructState();
        if state.None? {
          return event, false;
        }
        snapshots := snapshots[event.id := Snapshot(snapTime, event.id, state.value)];
      }
    }

    method Purge(cutoff: int) returns (removed: nat)
      modifies this
      ensures Contents() == Next(old(Contents()), Op.Purge(cutoff))
      ensures removed == |old(events)| - |events|
    {
      removed := 0;
      var filtered: seq<Event> := [];
      for i := 0 to |events|
        invariant events == old(events) && Contents() == old(Contents())
        invariant filtered == Recent(events[..i], cutoff) && removed == i - |filtered|
      {
        assert events[..i + 1][..i] == events[..i];
        if events[i].timestamp >= cutoff {
          filtered := filtered + [events[i]];
        } else {
          removed := removed + 1;
        }
      }
      assert events[..|events|] == events;
      events := filtered;
    }
  }

  // ---------------------------------------------------------------------------------------------
  // Event identifiers
  // ---------------------------------------------------------------------------------------------

  function After(run: seq<Op>): Store {
    if run == [] then Store([], map[], 0) else Next(After(run[..|run| - 1]), run[|run| - 1])
  }

  lemma {:induction false} LastPartIsUnique(a: string, b: string, d: string, e: string)
    requires a + "-" + d == b + "-" + e && '-' !in d && '-' !in e
    ensures d == e
  {
    var s := a + "-" + d;
    assert s[|a|] == '-' && s[|b|] == '-';
    assert |a| == |b|;
    assert d == s[|a| + 1..] && e == s[|b| + 1..];
  }

  /** Two events with different serial numbers have different identifiers, whatever the clock says. */
  lemma IdsDiffer(t: int, m: nat, u: int, n: nat)
    requires m != n
    ensures EventId(t, m) != EventId(u, n)
  {
    if EventId(t, m) == EventId(u, n) {
      LastPartIsUnique("evt-" + DecInt(t), "evt-" + DecInt(u), Dec(m), Dec(n));
      ValueOfDec(m);
      ValueOfDec(n);
    }
  }

  lemma CountGrows(run: seq<Op>, i: nat)
    requires i < |run| && run[i].Append?
    ensures After(run[..i]).eventCount < After(run).eventCount
  {
    CountIsAppends(run);
    CountIsAppends(run[..i]);
    AppendsGrow(run, i);
  }

  function Appends(run: seq<Op>): nat {
    if run == [] then 0 else Appends(run[..|run| - 1]) + if run[|run| - 1].Append? then 1 else 0
  }

  lemma {:induction false} CountIsAppends(run: seq<Op>)
    ensures After(run).eventCount == Appends(run)
    decreases |run|
  {
    if run != [] {
      CountIsAppends(run[..|run| - 1]);
      CountStepUp(After(run[..|run| - 1]), run[|run| - 1]);
    }
  }

  lemma {:induction false} AppendsGrow(run: seq<Op>, i: nat)
    requires i < |run| && run[i].Append?
    ensures Appends(run[..i]) < Appends(run)
    decreases |run|
  {
    var n := |run| - 1;
    if i < n {
      assert run[..n][..i] == run[..i];
      AppendsGrow(run[..n], i);
    }
  }

  lemma CountStepUp(s: Store, op: Op)
    ensures Next(s, op).eventCount == s.eventCount + if op.Append? then 1 else 0
  {
  }

  /** The identifier handed out at position `i` of a run. */
  function IdAt(run: seq<Op>, i: nat): string
    requires i < |run| && run[i].Append?
  {
    NewEvent(After(run[..i]), run[i]).id
  }

  /** In every run, purges included, no identifier is handed out twice. */
  lemma IdsAreNeverReused(run: seq<Op>, i: nat, j: nat)
    requires i < j < |run| && run[i].Append? && run[j].Append?
    ensures IdAt(run, i) != IdAt(run, j)
  {
    assert run[..j][..i] == run[..i];
    CountGrows(run[..j], i);
    IdsDiffer(run[i].idTime, After(run[..i]).eventCount, run[j].idTime, After(run[..j]).eventCount);
  }

  // ---------------------------------------------------------------------------------------------
  // Snapshots of append-only runs
  // ---------------------------------------------------------------------------------------------

  ghost predicate AppendOnly(run: seq<Op>) { forall i :: 0 <= i < |run| ==> run[i].Append? }

  /** The snapshot was taken after the first `k` events, of which the last bears its identifier. */
  ghost predicate TakenAt(s: Store, id: string, k: nat) {
    && 0 < k <= |s.events| && k % FREQ == 0
    && id in s.snapshots && s.events[k - 1].id == id
    && Replay(map[], s.events[..k]) == Some(s.snapshots[id].state)
  }

  ghost predicate IsTaken(s: Store, id: string) { exists k: nat :: TakenAt(s, id, k) }

  /** The event bears the serial number of its position. */
  ghost predicate IsNumbered(e: Event, i: nat) { exists t: int :: e.id == EventId(t, i) }

  /** How many events the complete hundreds cover. */
  function Covered(n: nat): (c: nat)
    ensures c <= n
  {
    n / FREQ * FREQ
  }

  lemma CoveredStep(n: nat)
    ensures if (n + 1) % FREQ == 0 then Covered(n + 1) == n + 1 && (n + 1) / FREQ == n / FREQ + 1
            else Covered(n + 1) == Covered(n) && (n + 1) / FREQ == n / FREQ
  {
  }

  /** `count` snapshots of these events: one for every hundred, fewer once the replay panics. */
  ghost predicate CountOk(events: seq<Event>, count: nat) {
    if Replay(map[], events[..Covered(|events|)]).Some? then count == |events| / FREQ
    else count < |events| / FREQ
  }

  ghost predicate SnapInv(s: Store) {
    && s.eventCount == |s.events|
    && (forall i :: 0 <= i < |s.events| ==> IsNumbered(s.events[i], i))
    && (forall id :: id in s.snapshots ==> IsTaken(s, id))
    && CountOk(s.events, |s.snapshots|)
  }

  lemma PrefixFails(events: seq<Event>, k: nat)
    requires k <= |events| && Replay(map[], events[..k]).None?
    ensures Replay(map[], events).None?
  {
    assert events == events[..k] + events[k..];
    ReplayConcat(map[], events[..k], events[k..]);
  }

  lemma NewIdIsNew(s: Store, id: string)
    requires IsTaken(s, id) && s.eventCount == |s.events|
    requires forall i :: 0 <= i < |s.events| ==> IsNumbered(s.events[i], i)
    ensures forall t :: id != EventId(t, s.eventCount)
  {
    var k: nat :| TakenAt(s, id, k);
    assert IsNumbered(s.events[k - 1], k - 1);
    var t: int :| s.events[k - 1].id == EventId(t, k - 1);
    forall u
      ensures id != EventId(u, s.eventCount)
    {
      IdsDiffer(t, k - 1, u, s.eventCount);
    }
  }

  lemma AppendKeepsTaken(s: Store, op: Op, id: string)
    requires SnapInv(s) && op.Append? && id in Next(s, op).snapshots
    ensures IsTaken(Next(s, op), id)
  {
    if id in s.snapshots {
      NewIdIsNew(s, id);
      var k: nat :| TakenAt(s, id, k);
      OldSnapshotStays(s, op, id, k);
    } else {
      NewSnapshotIsTaken(s, op, id);
    }
  }

  lemma OldSnapshotStays(s: Store, op: Op, id: string, k: nat)
    requires op.Append? && TakenAt(s, id, k) && id != NewEvent(s, op).id
    ensures TakenAt(Next(s, op), id, k)
  {
    assert Next(s, op).events[..k] == s.events[..k];
  }

  lemma NewSnapshotIsTaken(s: Store, op: Op, id: string)
    requires op.Append? && s.eventCount == |s.events|
    requires id !in s.snapshots && id in Next(s, op).snapshots
    ensures TakenAt(Next(s, op), id, |s.events| + 1)
  {
    assert Next(s, op).events[..|s.events| + 1] == Next(s, op).events;
  }

  /** The number of snapshots follows the number of hundreds. */
  lemma CountStep(events: seq<Event>, e: Event, count: nat)
    requires CountOk(events, count)
    ensures var events' := events + [e];
            CountOk(events', if |events'| % FREQ == 0 && Replay(map[], events').Some? then count + 1 else count)
  {
    var events' := events + [e];
    var c := Covered(|events|);
    CoveredStep(|events|);
    assert events'[..c] == events[..c];
    if |events'| % FREQ == 0 {
      assert events'[..|events'|] == events';
      if Replay(map[], events[..c]).None? {
        PrefixFails(events', c);
      }
    }
  }

  lemma AppendKeepsSnapInv(s: Store, op: Op)
    requires SnapInv(s) && op.Append?
    ensures SnapInv(Next(s, op))
  {
    forall id | id in Next(s, op).snapshots
      ensures IsTaken(Next(s, op), id)
    {
      AppendKeepsTaken(s, op, id);
    }
    AppendKeepsNumbers(s, op);
    AppendKeepsCount(s, op);
  }

  lemma AppendKeepsNumbers(s: Store, op: Op)
    requires SnapInv(s) && op.Append?
    ensures var s' := Next(s, op);
            s'.eventCount == |s'.events| && forall i :: 0 <= i < |s'.events| ==> IsNumbered(s'.events[i], i)
  {
    NumberOneMore(s.events, NewEvent(s, op), op.idTime);
  }

  lemma NumberOneMore(events: seq<Event>, e: Event, t: int)
    requires e.id == EventId(t, |events|) && forall i :: 0 <= i < |events| ==> IsNumbered(events[i], i)
    ensures forall i :: 0 <= i <= |events| ==> IsNumbered((events + [e])[i], i)
  {
  }

  lemma AppendKeepsCount(s: Store, op: Op)
    requires SnapInv(s) && op.Append?
    ensures CountOk(Next(s, op).events, |Next(s, op).snapshots|)
  {
    var e := NewEvent(s, op);
    if e.id in s.snapshots {
      assert IsTaken(s, e.id);
      NewIdIsNew(s, e.id);
    }
    CountStep(s.events, e, |s.snapshots|);
  }

  lemma {:induction false} AppendOnlyRunsKeepSnapInv(run: seq<Op>)
    requires AppendOnly(run)
    ensures SnapInv(After(run)) && |After(run).events| == |run|
    decreases |run|
  {
    if run != [] {
      var init := run[..|run| - 1];
      AppendOnlyRunsKeepSnapInv(init);
      AppendKeepsSnapInv(After(init), run[|run| - 1]);
    }
  }

  lemma TailOnTop(s: Store, id: string, k: nat)
    requires TakenAt(s, id, k)
    ensures Replay(s.snapshots[id].state, s.events[k..]) == Replay(map[], s.events)
  {
    assert s.events == s.events[..k] + s.events[k..];
    ReplayConcat(map[], s.events[..k], s.events[k..]);
  }

  /** In every append-only run: any snapshot, with the events after it replayed on top, gives the
      state rebuilt from the whole log. */
  lemma SnapshotPlusTailIsState(run: seq<Op>, id: string) returns (k: nat)
    requires AppendOnly(run) && id in After(run).snapshots
    ensures TakenAt(After(run), id, k)
    ensures Replay(After(run).snapshots[id].state, After(run).events[k..]) == Replay(map[], After(run).events)
  {
    AppendOnlyRunsKeepSnapInv(run);
    k := PositionOf(After(run), id);
    TailOnTop(After(run), id, k);
  }

  lemma PositionOf(s: Store, id: string) returns (k: nat)
    requires SnapInv(s) && id in s.snapshots
    ensures TakenAt(s, id, k)
  {
    assert IsTaken(s, id);
    k :| TakenAt(s, id, k);
  }

  /** There is one snapshot for every hundred events exactly when every deduction in those hundreds
      carries a number. */
  lemma SnapshotCount(run: seq<Op>)
    requires AppendOnly(run)
    ensures var s := After(run);
            |s.snapshots| == |run| / 100 <==>
            forall i :: 0 <= i < |run| / 100 * 100 && i < |s.events| && IsDeduction(s.events[i]) ==>
              Field(s.events[i], "amount").Num?
  {
    AppendOnlyRunsKeepSnapInv(run);
    var events := After(run).events[..Covered(|run|)];
    ReplaySucceedsIff(map[], events);
    assert forall i :: 0 <= i < Covered(|run|) ==> events[i] == After(run).events[i];
  }

  /** The rebuilt total is the sum of all deductions. */
  lemma TotalIsSumOfDeductions(run: seq<Op>)
    requires Replay(map[], After(run).events).Some?
    ensures Spent(Replay(map[], After(run).events).value) == Deducted(After(run).events)
  {
    ReplayConservesSpending(map[], After(run).events);
  }
}
