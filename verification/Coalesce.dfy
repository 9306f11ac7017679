/** The coalescer: one run at a time, and one trailing run for the calls that arrive meanwhile. */
module Coalesce {

  // Each lock section of `do` is one function on the four guarded fields. A
  // `System` interleaves the lock sections of any number of calls, and keeps
  // the history of runs that the guarantee is about.

  datatype Coal = Coal(running: bool, pending: bool, startedEpoch: nat, completedEpoch: nat)

  const IDLE := Coal(false, false, 0, 0)

  /** The section a call enters `do` through: it leads, or asks for one more run. */
  function Arrived(c: Coal): Coal {
    if c.running then c.(pending := true)
    else c.(running := true, startedEpoch := c.startedEpoch + 1)
  }

  /** The section a leader runs after each fn: it goes round again, or stops. */
  function RunEnded(c: Coal): Coal {
    var done := c.(completedEpoch := c.startedEpoch);
    if c.pending then done.(pending := false, startedEpoch := c.startedEpoch + 1)
    else done.(running := false)
  }

  /** What a waiter tests when it holds the lock: it stays while this is false. */
  predicate Released(c: Coal, arrivedAfter: nat) {
    c.completedEpoch > arrivedAfter
  }

  class Coalescer {
    var running: bool
    var pending: bool
    var startedEpoch: nat
    var completedEpoch: nat

    function View(): Coal
      reads this
    {
      Coal(running, pending, startedEpoch, completedEpoch)
    }

    constructor ()
      ensures View() == IDLE
    {
      running, pending, startedEpoch, completedEpoch := false, false, 0, 0;
    }

    method Arrive() returns (leads: bool, arrivedAfter: nat)
      modifies this
      ensures View() == Arrived(old(View()))
      ensures leads == !old(running)
      ensures arrivedAfter == old(startedEpoch)
    {
      arrivedAfter := startedEpoch;
      leads := !running;
      if running {
        pending := true;
      } else {
        running := true;
        startedEpoch := startedEpoch + 1;
      }
    }

    method EndRun() returns (again: bool)
      modifies this
      ensures View() == RunEnded(old(View()))
      ensures again == old(pending)
    {
      completedEpoch := startedEpoch;
      again := pending;
      if !pending {
        running := false;
        return;
      }
      pending := false;
      startedEpoch := startedEpoch + 1;
    }
  }

  /** A coalescer per key, made the first time the key is used. */
  class KeyedCoalescer {
    var byKey: map<string, Coalescer>

    constructor ()
      ensures byKey == map[]
    {
      byKey := map[];
    }

    method For(key: string) returns (c: Coalescer)
      modifies this
      ensures key in byKey && byKey[key] == c
      ensures key in old(byKey) ==> byKey == old(byKey)
      ensures key !in old(byKey) ==> fresh(c) && c.View() == IDLE && byKey == old(byKey)[key := c]
    {
      if key in byKey {
        c := byKey[key];
      } else {
        c := new Coalescer();
        byKey := byKey[key := c];
      }
    }
  }

  // ---- Interleavings of any number of calls ----

  /** One call of `do`. `run` counts the runs begun before the one that serves it. */
  datatype Call =
    | Leading(arrived: nat, run: nat)
    | Waiting(arrived: nat, run: nat)
    | Returned(arrived: nat, run: nat, at: nat)

  datatype Event =
    | Calls(id: nat)    // a new call takes the lock
    | FnReturns(id: nat)  // the leader's fn returned and it takes the lock
    | Wakes(id: nat)    // a waiter holds the lock and tests its condition

  /** `begun` and `ended` hold the time each run began and ended; the clock counts steps. */
  datatype System = System(coal: Coal, clock: nat, begun: seq<nat>, ended: seq<nat>, calls: map<nat, Call>)

  const START := System(IDLE, 0, [], [], map[])

  function OnCalls(s: System, id: nat): System
    requires id !in s.calls
  {
    var call := if s.coal.running then Waiting(s.clock, s.coal.startedEpoch) else Leading(s.clock, s.coal.startedEpoch);
    System(Arrived(s.coal), s.clock + 1,
           if s.coal.running then s.begun else s.begun + [s.clock], s.ended, s.calls[id := call])
  }

  function OnFnReturns(s: System, id: nat): System
    requires id in s.calls && s.calls[id].Leading?
  {
    var call := Returned(s.calls[id].arrived, s.calls[id].run, s.clock);
    System(RunEnded(s.coal), s.clock + 1,
           if s.coal.pending then s.begun + [s.clock] else s.begun, s.ended + [s.clock],
           if s.coal.pending then s.calls else s.calls[id := call])
  }

  function OnWakes(s: System, id: nat): System
    requires id in s.calls && s.calls[id].Waiting? && Released(s.coal, s.calls[id].run)
  {
    s.(clock := s.clock + 1, calls := s.calls[id := Returned(s.calls[id].arrived, s.calls[id].run, s.clock)])
  }

  /** An event that cannot happen in `s` changes nothing. */
  function Step(s: System, e: Event): System {
    match e
    case Calls(id) => if id in s.calls then s else OnCalls(s, id)
    case FnReturns(id) => if id in s.calls && s.calls[id].Leading? then OnFnReturns(s, id) else s
    case Wakes(id) =>
      if id in s.calls && s.calls[id].Waiting? && Released(s.coal, s.calls[id].run) then OnWakes(s, id) else s
  }

  function Exec(s: System, events: seq<Event>): System {
    if events == [] then s
    else Step(Exec(s, events[..|events| - 1]), events[|events| - 1])
  }

  /** The states some interleaving of calls leads to. */
  ghost predicate Reachable(s: System) {
    exists events :: s == Exec(START, events)
  }

  /** Run `k` ended after it began, and before the next one began. */
  ghost predicate Apart(s: System, k: nat)
    requires k < |s.ended| <= |s.begun|
  {
    && s.begun[k] < s.ended[k] < s.clock
    && (k + 1 < |s.begun| ==> s.ended[k] <= s.begun[k + 1])
  }

  /** Runs are numbered by the epochs and follow each other without overlap. */
  ghost predicate RunsInOrder(s: System) {
    && s.coal.startedEpoch == |s.begun|
    && s.coal.completedEpoch == |s.ended|
    && |s.begun| == |s.ended| + (if s.coal.running then 1 else 0)
    && (s.coal.pending ==> s.coal.running)
    && (forall k :: 0 <= k < |s.begun| ==> s.begun[k] < s.clock)
    && (forall k :: 0 <= k < |s.ended| ==> Apart(s, k))
  }

  /** The run that serves a call is the first to begin at or after its arrival. */
  ghost predicate ServedByFirst(s: System, call: Call) {
    && call.run <= |s.begun|
    && call.arrived < s.clock
    && (call.run < |s.begun| ==> call.arrived <= s.begun[call.run])
    && (call.run > 0 ==> s.begun[call.run - 1] < call.arrived)
  }

  ghost predicate CallValid(s: System, call: Call) {
    && ServedByFirst(s, call)
    && match call
       case Leading(_, run) => s.coal.running && run < |s.begun|
       case Waiting(_, run) => run == |s.begun| ==> s.coal.pending
       case Returned(_, run, at) => run < |s.ended| && s.ended[run] <= at < s.clock
  }

  ghost predicate OneLeader(s: System) {
    && (s.coal.running ==> exists id :: id in s.calls && s.calls[id].Leading?)
    && (forall i, j :: i in s.calls && j in s.calls && s.calls[i].Leading? && s.calls[j].Leading? ==> i == j)
  }

  ghost predicate CallsValid(s: System) {
    forall id :: id in s.calls ==> CallValid(s, s.calls[id])
  }

  ghost predicate Inv(s: System) {
    && RunsInOrder(s)
    && OneLeader(s)
    && CallsValid(s)
    && |s.begun| + (if s.coal.pending then 1 else 0) <= |s.calls|
  }

  lemma CallsKeepsInv(s: System, id: nat)
    requires Inv(s) && id !in s.calls
    ensures Inv(OnCalls(s, id))
  {
    var t := OnCalls(s, id);
    assert RunsInOrder(t) by {
      forall k | 0 <= k < |t.ended| ensures Apart(t, k) { assert Apart(s, k); }
    }
    forall i | i in t.calls ensures CallValid(t, t.calls[i]) {
      if i != id { assert CallValid(s, s.calls[i]); }
    }
    if s.coal.running {
      var l :| l in s.calls && s.calls[l].Leading?;
      assert t.calls[l].Leading?;
    } else {
      assert forall i :: i in s.calls ==> CallValid(s, s.calls[i]) && !s.calls[i].Leading?;
      assert t.calls[id].Leading?;
    }
  }

  lemma FnReturnsKeepsInv(s: System, id: nat)
    requires Inv(s) && id in s.calls && s.calls[id].Leading?
    ensures Inv(OnFnReturns(s, id))
  {
    var t := OnFnReturns(s, id);
    assert CallValid(s, s.calls[id]);
    assert RunsInOrder(t) by {
      forall k | 0 <= k < |t.ended| ensures Apart(t, k) {
        if k < |s.ended| { assert Apart(s, k); }
      }
    }
    assert Apart(t, s.calls[id].run);
    forall i | i in t.calls ensures CallValid(t, t.calls[i]) {
      assert CallValid(s, s.calls[i]);
    }
    assert t.coal.running ==> t.calls[id].Leading?;
    assert OneLeader(t);
  }

  /** What a call says stands while only the clock moves. */
  lemma OnlyTimePasses(s: System, t: System)
    requires t.coal == s.coal && t.begun == s.begun && t.ended == s.ended && s.clock <= t.clock
    requires RunsInOrder(s)
    ensures RunsInOrder(t)
    ensures forall call :: CallValid(s, call) ==> CallValid(t, call)
  {
    forall k | 0 <= k < |t.ended| ensures Apart(t, k) { assert Apart(s, k); }
  }

  lemma WakesKeepsInv(s: System, id: nat)
    requires Inv(s) && id in s.calls && s.calls[id].Waiting? && Released(s.coal, s.calls[id].run)
    ensures Inv(OnWakes(s, id))
  {
    var t := OnWakes(s, id);
    OnlyTimePasses(s, t);
    assert CallValid(s, s.calls[id]);
    assert Apart(s, s.calls[id].run);
    WakesKeepsLeader(s, id);
    forall i | i in t.calls ensures CallValid(t, t.calls[i]) {
      if i != id { assert CallValid(s, s.calls[i]); }
    }
  }

  lemma WakesKeepsLeader(s: System, id: nat)
    requires OneLeader(s) && id in s.calls && s.calls[id].Waiting? && Released(s.coal, s.calls[id].run)
    ensures OneLeader(OnWakes(s, id))
  {
    var t := OnWakes(s, id);
    if s.coal.running {
      var l :| l in s.calls && s.calls[l].Leading?;
      assert t.calls[l].Leading?;
    }
  }

  lemma StepKeepsInv(s: System, e: Event)
    requires Inv(s)
    ensures Inv(Step(s, e))
  {
    if Step(s, e) != s {
      match e {
        case Calls(id) => CallsKeepsInv(s, id);
        case FnReturns(id) => FnReturnsKeepsInv(s, id);
        case Wakes(id) => WakesKeepsInv(s, id);
      }
    }
  }

  lemma {:induction false} ExecKeepsInv(s: System, events: seq<Event>)
    requires Inv(s)
    ensures Inv(Exec(s, events))
  {
    if events != [] {
      ExecKeepsInv(s, events[..|events| - 1]);
      StepKeepsInv(Exec(s, events[..|events| - 1]), events[|events| - 1]);
    }
  }

  lemma ReachableInv(s: System)
    requires Reachable(s)
    ensures Inv(s)
  {
    var events :| s == Exec(START, events);
    ExecKeepsInv(START, events);
  }

  /** Runs never overlap and there is never one nobody asked for: each run ends
      before the next begins, exactly one call leads while one is in flight, and
      runs never outnumber calls. */
  lemma RunsNeverOverlap(s: System)
    requires Reachable(s)
    ensures |s.begun| - 1 <= |s.ended| <= |s.begun|
    ensures s.coal.running <==> |s.ended| < |s.begun|
    ensures forall k :: 0 <= k < |s.ended| ==> Apart(s, k)
    ensures s.coal.running <==> exists id :: id in s.calls && s.calls[id].Leading?
    ensures forall i, j :: i in s.calls && j in s.calls && s.calls[i].Leading? && s.calls[j].Leading? ==> i == j
    ensures |s.begun| <= |s.calls|
  {
    ReachableInv(s);
    forall id | id in s.calls && s.calls[id].Leading? ensures s.coal.running {
      assert CallValid(s, s.calls[id]);
    }
  }

  lemma {:induction false} BegunInOrder(s: System, i: nat, j: nat)
    requires RunsInOrder(s) && i < j < |s.begun|
    ensures s.begun[i] < s.begun[j]
    decreases j - i
  {
    assert Apart(s, j - 1);
    if i + 1 < j {
      BegunInOrder(s, i, j - 1);
    }
  }

  /** Every call that has returned saw one whole run that began at or after its
      own arrival, and that run was the first such. */
  lemma ReturnsAfterItsOwnRun(s: System, id: nat)
    requires Reachable(s) && id in s.calls && s.calls[id].Returned?
    ensures var call := s.calls[id]; var k := call.run;
      && k < |s.ended| <= |s.begun|
      && call.arrived <= s.begun[k] < s.ended[k] <= call.at
      && forall j :: 0 <= j < k ==> s.begun[j] < call.arrived
  {
    ReachableInv(s);
    var call := s.calls[id];
    assert CallValid(s, call);
    assert Apart(s, call.run);
    forall j | 0 <= j < call.run ensures s.begun[j] < call.arrived {
      if j < call.run - 1 { BegunInOrder(s, j, call.run - 1); }
    }
  }

  lemma ServedByTheNext(s: System, call: Call, k: nat)
    requires RunsInOrder(s) && ServedByFirst(s, call)
    requires k < |s.begun| && s.begun[k] < call.arrived
    requires k < |s.ended| ==> call.arrived < s.ended[k]
    ensures call.run == k + 1
  {
    if call.run < k {
      BegunInOrder(s, call.run, k);
    } else if call.run > k + 1 {
      assert Apart(s, k);
      if k + 1 < call.run - 1 { BegunInOrder(s, k + 1, call.run - 1); }
    }
  }

  /** Calls that arrive while run `k` is in flight are all served by run `k + 1`,
      and until it begins it is pending: they share exactly one trailing run. */
  lemma ShareOneTrailingRun(s: System, id: nat, k: nat)
    requires Reachable(s) && id in s.calls
    requires k < |s.begun| && s.begun[k] < s.calls[id].arrived
    requires k < |s.ended| ==> s.calls[id].arrived < s.ended[k]
    ensures s.calls[id].run == k + 1
    ensures k + 1 == |s.begun| ==> s.coal.pending
  {
    ReachableInv(s);
    assert CallValid(s, s.calls[id]);
    ServedByTheNext(s, s.calls[id], k);
  }

  /** No waiter is stranded: until it may return, the run it waits for is in
      flight or pending, behind a leader that will end the one in flight. */
  lemma NoWaiterStranded(s: System, id: nat)
    requires Reachable(s) && id in s.calls && s.calls[id].Waiting?
    requires !Released(s.coal, s.calls[id].run)
    ensures s.coal.running
    ensures s.calls[id].run == s.coal.completedEpoch || (s.calls[id].run == s.coal.completedEpoch + 1 && s.coal.pending)
    ensures exists l :: l in s.calls && s.calls[l].Leading?
  {
    ReachableInv(s);
    assert CallValid(s, s.calls[id]);
  }

  lemma CallStays(s: System, e: Event, id: nat)
    requires Inv(s) && id in s.calls && !s.calls[id].Leading?
    ensures var t := Step(s, e);
      && id in t.calls && !t.calls[id].Leading? && t.calls[id].run == s.calls[id].run
  {
  }

  lemma {:induction false} CallStaysThrough(s: System, events: seq<Event>, id: nat)
    requires Inv(s) && id in s.calls && !s.calls[id].Leading?
    ensures var t := Exec(s, events);
      && Inv(t) && id in t.calls && !t.calls[id].Leading? && t.calls[id].run == s.calls[id].run
  {
    if events != [] {
      var t := Exec(s, events[..|events| - 1]);
      CallStaysThrough(s, events[..|events| - 1], id);
      StepKeepsInv(t, events[|events| - 1]);
      CallStays(t, events[|events| - 1], id);
    }
  }

  /** Whatever else happens, two more completions let a waiter go. */
  lemma TwoCompletionsRelease(s: System, after: seq<Event>, id: nat)
    requires Reachable(s) && id in s.calls && s.calls[id].Waiting?
    requires |Exec(s, after).ended| >= |s.ended| + 2
    ensures var t := Exec(s, after);
      id in t.calls && t.calls[id].run == s.calls[id].run && (t.calls[id].Returned? || Released(t.coal, t.calls[id].run))
  {
    ReachableInv(s);
    assert CallValid(s, s.calls[id]);
    CallStaysThrough(s, after, id);
  }

  // ---- One coalescer per key ----

  datatype KeyedEvent = On(key: string, event: Event)

  function At(m: map<string, System>, key: string): System {
    if key in m then m[key] else START
  }

  function ExecKeyed(m: map<string, System>, events: seq<KeyedEvent>): map<string, System> {
    if events == [] then m
    else
      var before := ExecKeyed(m, events[..|events| - 1]);
      var last := events[|events| - 1];
      before[last.key := Step(At(before, last.key), last.event)]
  }

  function OfKey(events: seq<KeyedEvent>, key: string): seq<Event> {
    if events == [] then []
    else
      var last := events[|events| - 1];
      OfKey(events[..|events| - 1], key) + (if last.key == key then [last.event] else [])
  }

  /** Keys never wait on each other: what a key's calls see is what they would
      see if no other key were in use. */
  lemma {:induction false} KeysAreIndependent(events: seq<KeyedEvent>, key: string)
    ensures At(ExecKeyed(map[], events), key) == Exec(START, OfKey(events, key))
  {
    if events != [] {
      var rest := events[..|events| - 1];
      var last := events[|events| - 1];
      KeysAreIndependent(rest, key);
      if last.key == key {
        var own := OfKey(events, key);
        assert own[..|own| - 1] == OfKey(rest, key);
      } else {
        assert OfKey(events, key) == OfKey(rest, key);
      }
    }
  }
}
