/** Merging armed pull requests: a refusal stands until the pull request changes. */
module AutoMerges {
  import opened Prelude

  type Key = string

  // Seconds.
  const TRANSIENT_WAIT := 300

  /** The last merge tried for a pull request: it stands for good, or until a time. */
  datatype Attempt = Attempt(updatedAt: int, forever: bool, until: int)

  type Attempts = map<Key, Attempt>

  predicate Stands(attempts: Attempts, key: Key, updatedAt: int, now: int) {
    key in attempts && attempts[key].updatedAt == updatedAt && (attempts[key].forever || now < attempts[key].until)
  }

  function Begun(attempts: Attempts, key: Key, updatedAt: int): Attempts {
    attempts[key := Attempt(updatedAt, true, 0)]
  }

  /** A rate limit, an unreachable forge or a merge cut off may be tried again later. */
  function Postponed(attempts: Attempts, key: Key, updatedAt: int, now: int): Attempts {
    attempts[key := Attempt(updatedAt, false, now + TRANSIENT_WAIT)]
  }

  function Pruned(attempts: Attempts, armed: set<Key>): Attempts {
    map k | k in attempts && k in armed :: attempts[k]
  }

  class AutoMerge {
    var attempts: Attempts

    constructor ()
      ensures attempts == map[]
    {
      attempts := map[];
    }

    /** begin: whether the pull request may be merged now; if so the attempt is on record. */
    method Begin(key: Key, updatedAt: int, now: int) returns (may: bool)
      modifies this
      ensures may == !Stands(old(attempts), key, updatedAt, now)
      ensures attempts == if may then Begun(old(attempts), key, updatedAt) else old(attempts)
    {
      if key in attempts {
        var prev := attempts[key];
        if prev.updatedAt == updatedAt && (prev.forever || now < prev.until) {
          return false;
        }
      }
      attempts := attempts[key := Attempt(updatedAt, true, 0)];
      may := true;
    }

    /** failed and interrupted, as far as the next attempt goes. */
    method Failed(key: Key, updatedAt: int, transient: bool, now: int)
      modifies this
      ensures attempts == if transient then Postponed(old(attempts), key, updatedAt, now) else old(attempts)
    {
      if transient {
        attempts := attempts[key := Attempt(updatedAt, false, now + TRANSIENT_WAIT)];
      }
    }

    method Prune(armed: set<Key>)
      modifies this
      ensures attempts == Pruned(old(attempts), armed)
    {
      ghost var was := attempts;
      var all := attempts.Keys;
      while all != {}
        invariant all <= was.Keys
        invariant forall k :: k in attempts <==> k in was && (k in all || k in armed)
        invariant forall k | k in attempts :: attempts[k] == was[k]
        decreases |all|
      {
        var k :| k in all;
        if k !in armed {
          attempts := attempts - {k};
        }
        all := all - {k};
      }
    }
  }

  // ---- Every run of passes ----

  /** How a merge call ended, and a transient failure when. */
  datatype Outcome = InFlight | Merged | Refused | Transient(at: int)

  /**
   * A merge call. `prev` is the call before it for the same pull request, if the pull request stayed
   * armed in between.
   */
  datatype Call = Call(key: Key, updatedAt: int, at: int, prev: Option<nat>, outcome: Outcome)

  /** `calls`, `last` and `running` are history; one pass runs at a time, so at most one call does. */
  datatype State = State(attempts: Attempts, now: int, calls: seq<Call>, last: map<Key, nat>, running: Option<nat>)

  datatype Event =
    | Passes(seconds: nat)
    | Prunes(armed: set<Key>)
    | Tries(key: Key, updatedAt: int)
    | Ends(merged: bool, transient: bool)

  function OnTries(s: State, key: Key, updatedAt: int): State {
    if s.running.Some? || Stands(s.attempts, key, updatedAt, s.now) then s
    else
      var prev := if key in s.last then Some(s.last[key]) else None;
      State(Begun(s.attempts, key, updatedAt), s.now, s.calls + [Call(key, updatedAt, s.now, prev, InFlight)],
            s.last[key := |s.calls|], Some(|s.calls|))
  }

  function OnEnds(s: State, merged: bool, transient: bool): State {
    if s.running.None? || s.running.value >= |s.calls| then s
    else
      var i := s.running.value;
      var call := s.calls[i];
      var outcome := if merged then Merged else if transient then Transient(s.now) else Refused;
      s.(attempts := if outcome.Transient? then Postponed(s.attempts, call.key, call.updatedAt, s.now) else s.attempts,
         calls := s.calls[i := call.(outcome := outcome)], running := None)
  }

  function OnPrunes(s: State, armed: set<Key>): State {
    if s.running.Some? then s
    else s.(attempts := Pruned(s.attempts, armed), last := map k | k in s.last && k in armed :: s.last[k])
  }

  function Step(s: State, e: Event): State {
    match e
    case Passes(seconds) => s.(now := s.now + seconds)
    case Prunes(armed) => OnPrunes(s, armed)
    case Tries(key, updatedAt) => OnTries(s, key, updatedAt)
    case Ends(merged, transient) => OnEnds(s, merged, transient)
  }

  const START := State(map[], 0, [], map[], None)

  function Exec(events: seq<Event>): State {
    if events == [] then START
    else Step(Exec(events[..|events| - 1]), events[|events| - 1])
  }

  ghost predicate Reachable(s: State) {
    exists events :: s == Exec(events)
  }

  /** The record of a pull request tells how its last call went. */
  ghost predicate Tells(s: State, k: Key) {
    k in s.attempts && k in s.last && s.last[k] < |s.calls| &&
    var call, a := s.calls[s.last[k]], s.attempts[k];
    && call.key == k && a.updatedAt == call.updatedAt
    && (a.forever <==> !call.outcome.Transient?)
    && (!a.forever ==> a.until == call.outcome.at + TRANSIENT_WAIT)
  }

  /** A call after another for the same state of the pull request had reason to be made, and waited. */
  ghost predicate Spaced(calls: seq<Call>, j: nat)
    requires j < |calls|
  {
    calls[j].prev.Some? ==>
      var i := calls[j].prev.value;
      i < j && calls[i].key == calls[j].key && !calls[i].outcome.InFlight? &&
      (calls[i].updatedAt == calls[j].updatedAt ==>
         calls[i].outcome.Transient? && calls[i].outcome.at + TRANSIENT_WAIT <= calls[j].at)
  }

  predicate Timed(call: Call, now: int) {
    call.at <= now && (call.outcome.Transient? ==> call.at <= call.outcome.at)
  }

  ghost predicate Inv(s: State) {
    && s.attempts.Keys == s.last.Keys
    && (forall k | k in s.last :: Tells(s, k))
    && (forall j | 0 <= j < |s.calls| :: Spaced(s.calls, j) && Timed(s.calls[j], s.now))
    && (forall i | 0 <= i < |s.calls| && s.calls[i].outcome.InFlight? :: s.running == Some(i))
    && (s.running.Some? ==> s.running.value < |s.calls| && s.calls[s.running.value].outcome.InFlight?
                            && s.calls[s.running.value].key in s.last && s.last[s.calls[s.running.value].key] == s.running.value)
  }

  lemma TriesKeeps(s: State, key: Key, updatedAt: int)
    requires Inv(s)
    ensures Inv(OnTries(s, key, updatedAt))
  {
    var s' := OnTries(s, key, updatedAt);
    if s' != s {
      forall k | k in s'.last ensures Tells(s', k) {
        assert k in s.last ==> Tells(s, k);
      }
      forall j | 0 <= j < |s'.calls| ensures Spaced(s'.calls, j) {
        if j < |s.calls| {
          assert Spaced(s.calls, j);
        } else {
          assert key in s.last ==> Tells(s, key);
        }
      }
    }
  }

  lemma EndsKeeps(s: State, merged: bool, transient: bool)
    requires Inv(s)
    ensures Inv(OnEnds(s, merged, transient))
  {
    var s' := OnEnds(s, merged, transient);
    if s.running.Some? {
      forall k | k in s'.last ensures Tells(s', k) {
        assert Tells(s, k);
      }
      forall j | 0 <= j < |s'.calls| ensures Spaced(s'.calls, j) && Timed(s'.calls[j], s'.now) {
        assert Spaced(s.calls, j) && Timed(s.calls[j], s.now);
      }
    }
  }

  lemma StepKeeps(s: State, e: Event)
    requires Inv(s)
    ensures Inv(Step(s, e))
  {
    match e
    case Tries(key, updatedAt) => TriesKeeps(s, key, updatedAt);
    case Ends(merged, transient) => EndsKeeps(s, merged, transient);
    case _ =>
      var s' := Step(s, e);
      forall k | k in s'.last ensures Tells(s', k) {
        assert Tells(s, k);
      }
  }

  lemma {:induction false} ExecInv(events: seq<Event>)
    ensures Inv(Exec(events))
  {
    if events != [] {
      ExecInv(events[..|events| - 1]);
      StepKeeps(Exec(events[..|events| - 1]), events[|events| - 1]);
    }
  }

  // ---- Any two calls ----

  /** Whether `i` is `j`, or one of the calls before it for the same pull request, which stayed armed since. */
  predicate Before(calls: seq<Call>, i: nat, j: nat)
    requires j < |calls|
  {
    i == j || (calls[j].prev.Some? && calls[j].prev.value < j && Before(calls, i, calls[j].prev.value))
  }

  /** Whether the pull request read the same from call `i` to call `j`. */
  predicate Unchanged(calls: seq<Call>, i: nat, j: nat)
    requires j < |calls|
  {
    i == j ||
    (calls[j].prev.Some? && calls[j].prev.value < j && calls[calls[j].prev.value].updatedAt == calls[j].updatedAt
     && Unchanged(calls, i, calls[j].prev.value))
  }

  /** A call that failed transiently, long enough ago at `now`. */
  predicate Waited(call: Call, now: int) {
    call.outcome.Transient? && call.outcome.at + TRANSIENT_WAIT <= now
  }

  lemma {:induction false} SpacedOut(s: State, i: nat, j: nat)
    requires Inv(s) && i < j < |s.calls| && Unchanged(s.calls, i, j)
    ensures s.calls[i].key == s.calls[j].key && Waited(s.calls[i], s.calls[j].at)
  {
    var p := s.calls[j].prev.value;
    assert Spaced(s.calls, j) && Timed(s.calls[p], s.now);
    if i < p {
      SpacedOut(s, i, p);
    } else {
      NotAfter(s.calls, i, p);
    }
  }

  lemma {:induction false} NotAfter(calls: seq<Call>, i: nat, j: nat)
    requires j < |calls| && (Before(calls, i, j) || Unchanged(calls, i, j))
    ensures i <= j
  {
    if i != j {
      NotAfter(calls, i, calls[j].prev.value);
    }
  }

  /**
   * Between any two merge calls for one armed pull request that read the same all along, the first
   * failed transiently and the wait went by.
   */
  lemma MergesAreSpaced(s: State, i: nat, j: nat)
    requires Reachable(s) && i < j < |s.calls| && Unchanged(s.calls, i, j)
    ensures s.calls[i].key == s.calls[j].key
    ensures s.calls[i].outcome.Transient? && s.calls[j].at >= s.calls[i].outcome.at + TRANSIENT_WAIT
  {
    var events :| s == Exec(events);
    ExecInv(events);
    SpacedOut(s, i, j);
  }

  /** Whether call `i` was made for `key` since it was armed. */
  predicate Made(s: State, key: Key, i: nat) {
    key in s.last && s.last[key] < |s.calls| && Before(s.calls, i, s.last[key])
  }

  /**
   * Where a call for the state at hand has not waited, another is let through exactly when the last
   * call was for another state or has itself waited; and then the pull request has read otherwise
   * since, so this is the one way two calls for one state come too close.
   */
  lemma TooSoonIff(s: State, key: Key, updatedAt: int, i: nat)
    requires Reachable(s) && s.running.None? && Made(s, key, i)
    requires i < |s.calls| && s.calls[i].updatedAt == updatedAt && !Waited(s.calls[i], s.now)
    ensures var last := s.calls[s.last[key]];
            Step(s, Tries(key, updatedAt)) != s <==> last.updatedAt != updatedAt || Waited(last, s.now)
    ensures Step(s, Tries(key, updatedAt)) != s ==> !Unchanged(s.calls, i, s.last[key])
  {
    var events :| s == Exec(events);
    ExecInv(events);
    var last := s.last[key];
    assert Tells(s, key);
    if Step(s, Tries(key, updatedAt)) == s {
      assert |OnTries(s, key, updatedAt).calls| == |s.calls|;
    }
    if Unchanged(s.calls, i, last) {
      NotAfter(s.calls, i, last);
      SameState(s.calls, i, last);
      if i < last {
        assert Timed(s.calls[last], s.now);
        SpacedOut(s, i, last);
      }
    }
  }

  lemma {:induction false} SameState(calls: seq<Call>, i: nat, j: nat)
    requires i < |calls| && j < |calls| && Unchanged(calls, i, j)
    ensures calls[i].updatedAt == calls[j].updatedAt
  {
    if i != j {
      SameState(calls, i, calls[j].prev.value);
    }
  }

  /** And no call is held back without that reason: the last one, for the same state, stands. */
  lemma HeldBackOnlyMeanwhile(s: State, key: Key, updatedAt: int)
    requires Reachable(s) && s.running.None? && Step(s, Tries(key, updatedAt)) == s
    ensures key in s.last && s.last[key] < |s.calls|
    ensures var call := s.calls[s.last[key]];
            && call.key == key && call.updatedAt == updatedAt
            && (call.outcome.Transient? ==> s.now < call.outcome.at + TRANSIENT_WAIT)
  {
    var events :| s == Exec(events);
    ExecInv(events);
    assert Stands(s.attempts, key, updatedAt, s.now);
    assert Tells(s, key);
  }

  /**
   * Only the last state is remembered: a pull request that changes and then reads as it did before is
   * merged again at once, though that state was refused for good.
   */
  lemma AnOlderStateIsTriedAgain(key: Key, a: int, b: int)
    requires a != b
    ensures var s := Exec([Tries(key, a), Ends(false, false), Tries(key, b), Ends(false, false), Tries(key, a)]);
            && |s.calls| == 3 && s.calls[0].outcome.Refused? && s.calls[0].updatedAt == s.calls[2].updatedAt == a
            && s.calls[2].at == s.calls[0].at && Before(s.calls, 0, 2) && !Unchanged(s.calls, 0, 2)
  {
    var events := [Tries(key, a), Ends(false, false), Tries(key, b), Ends(false, false), Tries(key, a)];
    var s1 := Step(START, Tries(key, a));
    var s2 := Step(s1, Ends(false, false));
    var s3 := Step(s2, Tries(key, b));
    var s4 := Step(s3, Ends(false, false));
    assert events[..4][..3] == events[..3] && events[..3][..2] == events[..2];
    assert events[..2][..1] == events[..1] && events[..1][..0] == [];
    assert Exec(events[..1]) == s1;
    assert Exec(events[..2]) == s2;
    assert Exec(events[..3]) == s3;
    assert Exec(events[..4]) == s4;
    assert s4.calls == [Call(key, a, 0, None, Refused), Call(key, b, 0, Some(0), Refused)];
    var calls := Exec(events).calls;
    assert Before(calls, 0, 1) && calls[2].prev == Some(1);
  }
}
