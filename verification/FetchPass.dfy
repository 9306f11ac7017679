/** How long a pass over the sources may wait, and how a person's click shortens it. */
module FetchPasses {
  import opened Prelude

  // Seconds.
  const USER_DEADLINE := 60
  const FETCH_DEADLINE := 180

  /**
   * The pass under way. `deadline` is when the first of its timers fires, once one is armed; `user` says
   * a person has joined it; `joinedAt` says when, and `alone` that it was armed with nobody waiting, as
   * history.
   */
  datatype Pass = Pass(started: int, deadline: Option<int>, user: bool, joinedAt: int, armed: bool, alone: bool)

  function Earlier(deadline: Option<int>, at: int): Option<int> {
    if deadline.None? then Some(at) else Some(Min(deadline.value, at))
  }

  /** The source's pass object, its timers summed up in the earliest. */
  class FetchPass {
    const started: int
    var deadline: Option<int>
    var user: bool

    constructor (now: int)
      ensures started == now && deadline == None && !user
    {
      started, deadline, user := now, None, false;
    }

    method Arm(now: int, wait: int)
      modifies this`deadline
      ensures deadline == Earlier(old(deadline), now + wait)
    {
      deadline := if deadline.None? then Some(now + wait) else Some(Min(deadline.value, now + wait));
    }

    /** joinPass, once it has found the pass. */
    method Join(now: int)
      modifies this
      ensures user
      ensures deadline == if old(user) then old(deadline) else Earlier(old(deadline), now + Max(USER_DEADLINE - (now - started), 0))
    {
      var first := !user;
      user := true;
      if !first {
        return;
      }
      Arm(now, Max(USER_DEADLINE - (now - started), 0));
    }
  }

  // ---- A pass begins while people click ----

  /** A person's refresh: counted, and then, at `at`, it has looked for a pass to join. */
  datatype Person = Clicked | Looked(at: int)

  datatype State = State(now: int, pass: Option<Pass>, people: map<nat, Person>)

  /**
   * A pass becomes visible, and then reads whether anyone clicked and arms its timer, both at one
   * instant; a click is counted, and then looks for a pass.
   */
  datatype Event =
    | Goes(seconds: nat)
    | Publishes
    | Arms(background: bool)
    | Ends
    | Clicks(person: nat)
    | Looks(person: nat)
    | Leaves(person: nat)

  function Joined(pass: Pass, now: int): Pass {
    if pass.user then pass
    else pass.(user := true, joinedAt := now, deadline := Earlier(pass.deadline, now + Max(USER_DEADLINE - (now - pass.started), 0)))
  }

  function Step(s: State, e: Event): State {
    match e
    case Goes(seconds) => if s.pass.Some? && !s.pass.value.armed then s else s.(now := s.now + seconds)
    case Publishes => if s.pass.Some? then s else s.(pass := Some(Pass(s.now, None, false, 0, false, false)))
    case Arms(background) =>
      if s.pass.None? || s.pass.value.armed then s
      else
        var alone := background && s.people == map[];
        var wait := if alone then FETCH_DEADLINE else USER_DEADLINE;
        s.(pass := Some(s.pass.value.(armed := true, alone := alone, deadline := Earlier(s.pass.value.deadline, s.now + wait))))
    case Ends => if s.pass.Some? && s.pass.value.armed then s.(pass := None) else s
    case Clicks(person) => if person in s.people then s else s.(people := s.people[person := Clicked])
    case Looks(person) =>
      if person !in s.people || s.people[person].Looked? then s
      else
        s.(people := s.people[person := Looked(s.now)],
           pass := if s.pass.Some? then Some(Joined(s.pass.value, s.now)) else None)
    case Leaves(person) => s.(people := s.people - {person})
  }

  const START := State(0, None, map[])

  function Exec(events: seq<Event>): State {
    if events == [] then START
    else Step(Exec(events[..|events| - 1]), events[|events| - 1])
  }

  ghost predicate Reachable(s: State) {
    exists events :: s == Exec(events)
  }

  /** By when a pass a person joined at `at` is to be over. */
  function Bound(pass: Pass, at: int): int {
    Max(at, pass.started + USER_DEADLINE)
  }

  ghost predicate Within(pass: Pass, at: int) {
    pass.deadline.Some? && pass.deadline.value <= Bound(pass, at)
  }

  ghost predicate Inv(s: State) {
    && (forall p | p in s.people && s.people[p].Looked? :: s.people[p].at <= s.now)
    && (s.pass.Some? ==>
          var pass := s.pass.value;
          && pass.started <= s.now && (!pass.armed ==> pass.started == s.now)
          && (pass.armed ==> pass.deadline.Some? && pass.deadline.value <= pass.started + FETCH_DEADLINE)
          && (pass.deadline.Some? ==> pass.started + USER_DEADLINE <= pass.deadline.value && (pass.armed || pass.user))
          && (pass.armed && pass.alone && !pass.user ==> pass.deadline == Some(pass.started + FETCH_DEADLINE))
          && (pass.user ==> pass.joinedAt <= s.now && Within(pass, pass.joinedAt))
          && (pass.armed ==> forall p | p in s.people && s.people[p].Looked? :: Within(pass, s.people[p].at)))
  }

  lemma StepKeeps(s: State, e: Event)
    requires Inv(s)
    ensures Inv(Step(s, e))
  {
    if e.Arms? && s.pass.Some? && s.people != map[] {
      var p :| p in s.people;
      assert s.people != map[];
    }
  }

  lemma {:induction false} ExecInv(events: seq<Event>)
    ensures Inv(Exec(events))
  {
    if events != [] {
      ExecInv(events[..|events| - 1]);
      StepKeeps(Exec(events[..|events| - 1]), events[|events| - 1]);
    }
  }

  /**
   * No click is missed: whichever way a click and the start of a pass interleave, the pass is to be
   * over by the later of the moment the click looked and the person's deadline from its start, and in
   * any case by the schedule's.
   */
  lemma NoClickIsMissed(s: State, p: nat)
    requires Reachable(s) && s.pass.Some? && s.pass.value.armed && p in s.people && s.people[p].Looked?
    ensures s.pass.value.deadline.Some?
    ensures s.pass.value.deadline.value <= Max(s.people[p].at, s.pass.value.started + USER_DEADLINE)
    ensures s.pass.value.deadline.value <= s.pass.value.started + FETCH_DEADLINE
  {
    var events :| s == Exec(events);
    ExecInv(events);
  }

  /** And none is cut short for less: every pass has a person's deadline, and one nobody waits for the schedule's. */
  lemma NoPassIsCutShort(s: State)
    requires Reachable(s) && s.pass.Some? && s.pass.value.armed
    ensures s.pass.value.deadline.Some?
    ensures s.pass.value.started + USER_DEADLINE <= s.pass.value.deadline.value
    ensures s.pass.value.alone && !s.pass.value.user ==> s.pass.value.deadline.value == s.pass.value.started + FETCH_DEADLINE
  {
    var events :| s == Exec(events);
    ExecInv(events);
  }

  /** Nobody looks for the pass, and it does not end, from its arming at `j` to `m`. */
  ghost predicate LeftAlone(events: seq<Event>, j: nat, m: nat)
    requires j < m <= |events|
  {
    && events[j].Arms? && Exec(events[..j]).pass.Some?
    && !Exec(events[..j]).pass.value.armed && !Exec(events[..j]).pass.value.user
    && forall i | j < i < m :: !events[i].Looks? && !events[i].Ends?
  }

  /**
   * A pass of the schedule that begins with nobody waiting, and that nobody joins, has the schedule's
   * deadline; one begun for a person, or while anyone's click is counted, has the person's.
   */
  lemma {:induction false} ArmedFor(events: seq<Event>, j: nat, m: nat)
    requires j < m <= |events| && LeftAlone(events, j, m)
    ensures var s, after := Exec(events[..j]), Exec(events[..m]);
      && after.pass.Some? && after.pass.value.armed
      && after.pass.value.deadline == Some(after.pass.value.started
           + if events[j].background && s.people == map[] then FETCH_DEADLINE else USER_DEADLINE)
  {
    assert events[..m][..m - 1] == events[..m - 1];
    if m == j + 1 {
      ExecInv(events[..j]);
    } else {
      ArmedFor(events, j, m - 1);
    }
  }

  /** An end at `j` with no pass unarmed, and none published from there to `m`. */
  ghost predicate OverFrom(events: seq<Event>, j: nat, m: nat)
    requires j < m <= |events|
  {
    && events[j].Ends? && (Exec(events[..j]).pass.Some? ==> Exec(events[..j]).pass.value.armed)
    && forall i | j < i < m :: !events[i].Publishes?
  }

  /** A pass that ends is over until another is published, which begins then and owes nothing to it. */
  lemma {:induction false} OverUntilPublished(events: seq<Event>, j: nat, m: nat)
    requires j < m <= |events| && OverFrom(events, j, m)
    ensures Exec(events[..m]).pass.None?
    ensures m < |events| && events[m].Publishes? ==>
              Exec(events[..m + 1]).pass == Some(Pass(Exec(events[..m]).now, None, false, 0, false, false))
  {
    assert events[..m][..m - 1] == events[..m - 1];
    if m > j + 1 {
      OverUntilPublished(events, j, m - 1);
    }
    if m < |events| {
      assert events[..m + 1][..m] == events[..m];
    }
  }

  /** The person clicked at `j`, and has not left since. */
  ghost predicate ClickStands(events: seq<Event>, j: nat, person: nat)
    requires j < |events|
  {
    events[j] == Clicks(person) && forall i | j < i < |events| :: events[i] != Leaves(person)
  }

  /** Whoever clicked is counted until they leave, passes or none; and nobody else is. */
  lemma {:induction false} CountedIff(events: seq<Event>, person: nat)
    ensures person in Exec(events).people <==> exists j | 0 <= j < |events| :: ClickStands(events, j, person)
  {
    if events != [] {
      var most, last := events[..|events| - 1], events[|events| - 1];
      CountedIff(most, person);
      CountedNext(Exec(most), last, person);
      assert ClickStands(events, |most|, person) <==> last == Clicks(person);
      forall j: nat | j < |most|
        ensures ClickStands(events, j, person) <==> ClickStands(most, j, person) && last != Leaves(person)
      {
        assert forall i | j < i < |most| :: most[i] == events[i];
      }
    }
  }

  lemma CountedNext(s: State, e: Event, person: nat)
    ensures person in Step(s, e).people <==> e == Clicks(person) || (person in s.people && e != Leaves(person))
  {
  }
}
