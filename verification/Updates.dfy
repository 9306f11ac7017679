/** Bringing a behind pull request up to date: a refused update is not repeated on every refresh. */
module Updates {
  import opened Prelude

  type Key = string

  // Seconds.
  const REFUSED_WAIT := 3600
  const TRANSIENT_WAIT := 300

  datatype Attempt = Attempt(updatedAt: int, at: int, wait: int)

  type Attempts = map<Key, Attempt>

  predicate Stands(attempts: Attempts, key: Key, updatedAt: int, now: int) {
    key in attempts && attempts[key].updatedAt == updatedAt && now - attempts[key].at < attempts[key].wait
  }

  function Begun(attempts: Attempts, key: Key, updatedAt: int, now: int): Attempts {
    attempts[key := Attempt(updatedAt, now, TRANSIENT_WAIT)]
  }

  function Stretched(attempts: Attempts, key: Key): Attempts {
    if key in attempts then attempts[key := attempts[key].(wait := REFUSED_WAIT)] else attempts
  }

  function Pruned(attempts: Attempts, behind: set<Key>): Attempts {
    map k | k in attempts && k in behind :: attempts[k]
  }

  class Updater {
    var updateAttempts: Attempts

    constructor ()
      ensures updateAttempts == map[]
    {
      updateAttempts := map[];
    }

    method BeginUpdate(key: Key, updatedAt: int, now: int) returns (may: bool)
      modifies this
      ensures may == !Stands(old(updateAttempts), key, updatedAt, now)
      ensures updateAttempts == if may then Begun(old(updateAttempts), key, updatedAt, now) else old(updateAttempts)
    {
      if key in updateAttempts {
        var prev := updateAttempts[key];
        if prev.updatedAt == updatedAt && now - prev.at < prev.wait {
          return false;
        }
      }
      updateAttempts := updateAttempts[key := Attempt(updatedAt, now, TRANSIENT_WAIT)];
      may := true;
    }

    method FailedUpdate(key: Key, conflict: bool)
      modifies this
      ensures updateAttempts == if conflict then Stretched(old(updateAttempts), key) else old(updateAttempts)
    {
      if conflict && key in updateAttempts {
        var attempt := updateAttempts[key];
        updateAttempts := updateAttempts[key := attempt.(wait := REFUSED_WAIT)];
      }
    }

    method ClearUpdate(key: Key)
      modifies this
      ensures updateAttempts == old(updateAttempts) - {key}
    {
      updateAttempts := updateAttempts - {key};
    }

    method PruneUpdateAttempts(behind: set<Key>)
      modifies this
      ensures updateAttempts == Pruned(old(updateAttempts), behind)
    {
      ghost var was := updateAttempts;
      var all := updateAttempts.Keys;
      while all != {}
        invariant all <= was.Keys
        invariant forall k :: k in updateAttempts <==> k in was && (k in all || k in behind)
        invariant forall k | k in updateAttempts :: updateAttempts[k] == was[k]
        decreases |all|
      {
        var k :| k in all;
        if k !in behind {
          updateAttempts := updateAttempts - {k};
        }
        all := all - {k};
      }
    }
  }

  // ---- Every run of passes ----

  datatype Outcome = InFlight | Succeeded | Conflict | Failed

  /**
   * An UpdateBranch call. `prev` is the call before it for the same pull request, if that one did not
   * succeed and the pull request stayed behind in between.
   */
  datatype Call = Call(key: Key, updatedAt: int, at: int, prev: Option<nat>, outcome: Outcome)

  /** `calls`, `last` and `running` are history; one pass runs at a time, so at most one call does. */
  datatype State = State(attempts: Attempts, now: int, calls: seq<Call>, last: map<Key, nat>, running: Option<nat>)

  datatype Event =
    | Passes(seconds: nat)
    | Prunes(behind: set<Key>)
    | Tries(key: Key, updatedAt: int)
    | Ends(outcome: Outcome)

  function OnTries(s: State, key: Key, updatedAt: int): State {
    if s.running.Some? || Stands(s.attempts, key, updatedAt, s.now) then s
    else
      var prev := if key in s.last then Some(s.last[key]) else None;
      State(Begun(s.attempts, key, updatedAt, s.now), s.now, s.calls + [Call(key, updatedAt, s.now, prev, InFlight)],
            s.last[key := |s.calls|], Some(|s.calls|))
  }

  function OnEnds(s: State, outcome: Outcome): State {
    if s.running.None? || s.running.value >= |s.calls| || outcome.InFlight? then s
    else
      var i := s.running.value;
      var call := s.calls[i];
      var ended := s.(calls := s.calls[i := call.(outcome := outcome)], running := None);
      match outcome
      case Succeeded => ended.(attempts := s.attempts - {call.key}, last := s.last - {call.key})
      case Conflict => ended.(attempts := Stretched(s.attempts, call.key))
      case _ => ended
  }

  function OnPrunes(s: State, behind: set<Key>): State {
    if s.running.Some? then s
    else s.(attempts := Pruned(s.attempts, behind), last := map k | k in s.last && k in behind :: s.last[k])
  }

  function Step(s: State, e: Event): State {
    match e
    case Passes(seconds) => s.(now := s.now + seconds)
    case Prunes(behind) => OnPrunes(s, behind)
    case Tries(key, updatedAt) => OnTries(s, key, updatedAt)
    case Ends(outcome) => OnEnds(s, outcome)
  }

  const START := State(map[], 0, [], map[], None)

  function Exec(events: seq<Event>): State {
    if events == [] then START
    else Step(Exec(events[..|events| - 1]), events[|events| - 1])
  }

  ghost predicate Reachable(s: State) {
    exists events :: s == Exec(events)
  }

  function WaitAfter(outcome: Outcome): int {
    if outcome.Conflict? then REFUSED_WAIT else TRANSIENT_WAIT
  }

  /** The record of a pull request tells of its last call, and how long it stands. */
  ghost predicate Tells(s: State, k: Key) {
    k in s.attempts && k in s.last && s.last[k] < |s.calls| &&
    var call := s.calls[s.last[k]];
    call.key == k && !call.outcome.Succeeded? && s.attempts[k] == Attempt(call.updatedAt, call.at, WaitAfter(call.outcome))
  }

  ghost predicate Spaced(calls: seq<Call>, j: nat)
    requires j < |calls|
  {
    calls[j].prev.Some? ==>
      var i := calls[j].prev.value;
      && i < j && calls[i].key == calls[j].key && !calls[i].outcome.InFlight? && !calls[i].outcome.Succeeded?
      && (calls[i].updatedAt == calls[j].updatedAt ==> calls[i].at + WaitAfter(calls[i].outcome) <= calls[j].at)
  }

  ghost predicate Inv(s: State) {
    && s.attempts.Keys == s.last.Keys
    && (forall k | k in s.last :: Tells(s, k))
    && (forall j | 0 <= j < |s.calls| :: Spaced(s.calls, j) && s.calls[j].at <= s.now)
    && (forall i | 0 <= i < |s.calls| && s.calls[i].outcome.InFlight? :: s.running == Some(i))
    && (s.running.Some? ==> s.running.value < |s.calls| && s.calls[s.running.value].outcome.InFlight?
                            && s.calls[s.running.value].key in s.last && s.last[s.calls[s.running.value].key] == s.running.value)
  }

  lemma TriesKeeps(s: State, key: Key, updatedAt: int)
    requires Inv(s)
    ensures Inv(OnTries(s, key, updatedAt))
  {
    var s' := OnTries(s, key, updatedAt);
    if s' != s {
      forall k | k in s'.last ensures Tells(s', k) {
        assert k in s.last ==> Tells(s, k);
      }
      forall j | 0 <= j < |s'.calls| ensures Spaced(s'.calls, j) {
        if j < |s.calls| {
          assert Spaced(s.calls, j);
        } else {
          assert key in s.last ==> Tells(s, key);
        }
      }
    }
  }

  lemma EndsKeeps(s: State, outcome: Outcome)
    requires Inv(s)
    ensures Inv(OnEnds(s, outcome))
  {
    var s' := OnEnds(s, outcome);
    if s' != s {
      forall k | k in s'.last ensures Tells(s', k) {
        assert Tells(s, k);
      }
      forall j | 0 <= j < |s'.calls| ensures Spaced(s'.calls, j) {
        assert Spaced(s.calls, j);
      }
    }
  }

  lemma StepKeeps(s: State, e: Event)
    requires Inv(s)
    ensures Inv(Step(s, e))
  {
    match e
    case Tries(key, updatedAt) => TriesKeeps(s, key, updatedAt);
    case Ends(outcome) => EndsKeeps(s, outcome);
    case _ =>
      var s' := Step(s, e);
      forall k | k in s'.last ensures Tells(s', k) {
        assert Tells(s, k);
      }
  }

  lemma {:induction false} ExecInv(events: seq<Event>)
    ensures Inv(Exec(events))
  {
    if events != [] {
      ExecInv(events[..|events| - 1]);
      StepKeeps(Exec(events[..|events| - 1]), events[|events| - 1]);
    }
  }

  // ---- Any two calls ----

  /** Whether `i` is `j`, or one of the calls before it for the same pull request, which stayed behind since. */
  predicate Before(calls: seq<Call>, i: nat, j: nat)
    requires j < |calls|
  {
    i == j || (calls[j].prev.Some? && calls[j].prev.value < j && Before(calls, i, calls[j].prev.value))
  }

  /** Whether the pull request read the same from call `i` to call `j`. */
  predicate Unchanged(calls: seq<Call>, i: nat, j: nat)
    requires j < |calls|
  {
    i == j ||
    (calls[j].prev.Some? && calls[j].prev.value < j && calls[calls[j].prev.value].updatedAt == calls[j].updatedAt
     && Unchanged(calls, i, calls[j].prev.value))
  }

  /** A call long enough ago at `now`: five minutes, or an hour after a conflict. */
  predicate Waited(call: Call, now: int) {
    !call.outcome.Succeeded? && now - call.at >= if call.outcome.Conflict? then REFUSED_WAIT else TRANSIENT_WAIT
  }

  lemma {:induction false} SpacedOut(s: State, i: nat, j: nat)
    requires Inv(s) && i < j < |s.calls| && Unchanged(s.calls, i, j)
    ensures s.calls[i].key == s.calls[j].key && Waited(s.calls[i], s.calls[j].at)
  {
    var p := s.calls[j].prev.value;
    assert Spaced(s.calls, j);
    if i < p {
      SpacedOut(s, i, p);
    } else {
      NotAfter(s.calls, i, p);
    }
  }

  lemma {:induction false} NotAfter(calls: seq<Call>, i: nat, j: nat)
    requires j < |calls| && (Before(calls, i, j) || Unchanged(calls, i, j))
    ensures i <= j
  {
    if i != j {
      NotAfter(calls, i, calls[j].prev.value);
    }
  }

  /**
   * Between any two UpdateBranch calls for one pull request that stayed behind and unchanged, with none
   * that succeeded, five minutes went by, an hour if the first met a conflict.
   */
  lemma UpdatesAreSpaced(s: State, i: nat, j: nat)
    requires Reachable(s) && i < j < |s.calls| && Unchanged(s.calls, i, j)
    ensures s.calls[i].key == s.calls[j].key && !s.calls[i].outcome.Succeeded?
    ensures s.calls[j].at - s.calls[i].at >= if s.calls[i].outcome.Conflict? then REFUSED_WAIT else TRANSIENT_WAIT
  {
    var events :| s == Exec(events);
    ExecInv(events);
    SpacedOut(s, i, j);
  }

  /** Whether call `i` was made for `key` since it fell behind, with no success after it. */
  predicate Made(s: State, key: Key, i: nat) {
    key in s.last && s.last[key] < |s.calls| && Before(s.calls, i, s.last[key])
  }

  /**
   * Where a call for the state at hand has not waited, another is let through exactly when the last
   * call was for another state or has itself waited; and then the pull request has read otherwise
   * since, so this is the one way two calls for one state come too close.
   */
  lemma TooSoonIff(s: State, key: Key, updatedAt: int, i: nat)
    requires Reachable(s) && s.running.None? && Made(s, key, i)
    requires i < |s.calls| && s.calls[i].updatedAt == updatedAt && !Waited(s.calls[i], s.now)
    ensures var last := s.calls[s.last[key]];
            Step(s, Tries(key, updatedAt)) != s <==> last.updatedAt != updatedAt || Waited(last, s.now)
    ensures Step(s, Tries(key, updatedAt)) != s ==> !Unchanged(s.calls, i, s.last[key])
  {
    var events :| s == Exec(events);
    ExecInv(events);
    var last := s.last[key];
    assert Tells(s, key);
    if Step(s, Tries(key, updatedAt)) == s {
      assert |OnTries(s, key, updatedAt).calls| == |s.calls|;
    }
    if Unchanged(s.calls, i, last) {
      NotAfter(s.calls, i, last);
      SameState(s.calls, i, last);
      if i < last {
        SpacedOut(s, i, last);
      }
    }
  }

  lemma {:induction false} SameState(calls: seq<Call>, i: nat, j: nat)
    requires i < |calls| && j < |calls| && Unchanged(calls, i, j)
    ensures calls[i].updatedAt == calls[j].updatedAt
  {
    if i != j {
      SameState(calls, i, calls[j].prev.value);
    }
  }

  /** And no call is held back without that reason: the last one, for the same state, stands. */
  lemma HeldBackOnlyMeanwhile(s: State, key: Key, updatedAt: int)
    requires Reachable(s) && s.running.None? && Step(s, Tries(key, updatedAt)) == s
    ensures key in s.last && s.last[key] < |s.calls|
    ensures var call := s.calls[s.last[key]];
            && call.key == key && call.updatedAt == updatedAt && !call.outcome.Succeeded?
            && s.now - call.at < if call.outcome.Conflict? then REFUSED_WAIT else TRANSIENT_WAIT
  {
    var events :| s == Exec(events);
    ExecInv(events);
    assert Stands(s.attempts, key, updatedAt, s.now);
    assert Tells(s, key);
  }

  /**
   * Only the last state is remembered: a pull request that changes and then reads as it did before is
   * updated again at once, though that state met a conflict.
   */
  lemma AnOlderStateIsTriedAgain(key: Key, a: int, b: int)
    requires a != b
    ensures var s := Exec([Tries(key, a), Ends(Conflict), Tries(key, b), Ends(Conflict), Tries(key, a)]);
            && |s.calls| == 3 && s.calls[0].outcome.Conflict? && s.calls[0].updatedAt == s.calls[2].updatedAt == a
            && s.calls[2].at == s.calls[0].at && Before(s.calls, 0, 2) && !Unchanged(s.calls, 0, 2)
  {
    var events := [Tries(key, a), Ends(Conflict), Tries(key, b), Ends(Conflict), Tries(key, a)];
    var s1 := Step(START, Tries(key, a));
    var s2 := Step(s1, Ends(Conflict));
    var s3 := Step(s2, Tries(key, b));
    var s4 := Step(s3, Ends(Conflict));
    assert events[..4][..3] == events[..3] && events[..3][..2] == events[..2];
    assert events[..2][..1] == events[..1] && events[..1][..0] == [];
    assert Exec(events[..1]) == s1;
    assert Exec(events[..2]) == s2;
    assert Exec(events[..3]) == s3;
    assert Exec(events[..4]) == s4;
    assert s4.calls == [Call(key, a, 0, None, Conflict), Call(key, b, 0, Some(0), Conflict)];
    var calls := Exec(events).calls;
    assert Before(calls, 0, 1) && calls[2].prev == Some(1);
  }
}
