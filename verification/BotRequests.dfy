/** A rebase asked of Dependabot or Renovate: what moves it along, and why it ends. */
module BotRequests {
  import opened Prelude
  import opened Rows
  import opened Merge

  // Seconds.
  const QUEUED_WAIT := 600
  const REBASING_WAIT := 120
  const EXPIRED_KEEP := 3600

  datatype Bot = Dependabot | Renovate

  datatype Action = Rebase | Recreate

  datatype Phase = Queued | Rebasing | Expired

  /**
   * A request. `after` is the newest fetch that had started when it was made. `asked` and `returned`
   * are history: how many acknowledgement lookups were on their way when the first answered yes, and
   * how many brought the request back from expired.
   */
  datatype Request = Request(
    bot: Bot,
    action: Action,
    phase: Phase,
    requestedAt: int,
    expiresAt: int,
    acknowledgedAt: Option<int>,
    wasBehind: bool,
    head: string,
    after: nat,
    asked: nat,
    returned: nat)

  /** What a fetch shows of the pull request. */
  datatype Seen = Seen(head: string, behind: bool, pending: bool)

  /** Fetch `n` shows that the bot acted; one that began before the request shows nothing. */
  predicate Landed(e: Request, pr: Seen, n: nat) {
    e.after < n && ((e.head != "" && pr.head != e.head) || (e.wasBehind && !pr.behind))
  }

  /** advance: the request after one snapshot, or none when it is over. */
  function Advanced(e: Request, pr: Seen, n: nat, now: int): Option<Request> {
    match e.phase
    case Queued =>
      if Landed(e, pr, n) then
        if pr.pending then None else Some(e.(phase := Rebasing, expiresAt := now + REBASING_WAIT))
      else if now >= e.expiresAt then Some(e.(phase := Expired))
      else Some(e)
    case Rebasing => if pr.pending || now >= e.expiresAt then None else Some(e)
    case Expired => if now > e.expiresAt + EXPIRED_KEEP then None else Some(e)
  }

  /** The source's entry, moved along in place. */
  class BotEntry {
    const made: Request
    var phase: Phase
    var expiresAt: int

    function View(): Request
      reads this
    {
      made.(phase := phase, expiresAt := expiresAt)
    }

    constructor (e: Request)
      ensures View() == e
    {
      made, phase, expiresAt := e, e.phase, e.expiresAt;
    }

    method Advance(pr: Seen, n: nat, now: int) returns (keep: bool)
      modifies this
      ensures keep == Advanced(old(View()), pr, n, now).Some?
      ensures keep ==> View() == Advanced(old(View()), pr, n, now).value
    {
      match phase {
      case Queued =>
        var landed := made.after < n && ((made.head != "" && pr.head != made.head) || (made.wasBehind && !pr.behind));
        if landed && pr.pending {
          return false;
        } else if landed {
          phase, expiresAt := Rebasing, now + REBASING_WAIT;
        } else if now >= expiresAt {
          phase := Expired;
        }
      case Rebasing =>
        if pr.pending || now >= expiresAt {
          return false;
        }
      case Expired =>
        if now > expiresAt + EXPIRED_KEEP {
          return false;
        }
      }
      keep := true;
    }
  }

  // ---- The registry ----

  /** A lookup of the bot's reaction, on its way to the forge. */
  datatype Lookup = Lookup(id: Id, requestedAt: int)

  type Requests = map<Id, Request>

  function Recorded(rs: Requests, id: Id, bot: Bot, action: Action, pr: Seen, fetches: nat, now: int): Requests {
    rs[id := Request(bot, action, Queued, now, now + QUEUED_WAIT, None, pr.behind, pr.head, fetches, 0, 0)]
  }

  /** What a snapshot of fetch `n` makes of a request: moved along if listed, dropped if really gone. */
  function Swept(e: Request, id: Id, n: nat, listed: map<Id, Seen>, cover: Cover, now: int): Option<Request> {
    if id in listed then Advanced(e, listed[id], n, now)
    else if Covers(cover, id.home) then None
    else Some(e)
  }

  /** applyBotRequests. */
  function Applied(rs: Requests, n: nat, listed: map<Id, Seen>, cover: Cover, now: int): Requests {
    map id | id in rs && Swept(rs[id], id, n, listed, cover, now).Some? :: Swept(rs[id], id, n, listed, cover, now).value
  }

  /** Whether pendingAcks asks about a request. */
  predicate Asks(e: Request) {
    e.bot.Dependabot? && e.action.Rebase? && e.acknowledgedAt.None? && !e.phase.Rebasing?
  }

  /** recordAck, for a positive answer, `out` being the lookups like it still on their way. */
  function Acknowledged(rs: Requests, l: Lookup, out: nat, now: int): Requests {
    if l.id !in rs || rs[l.id].requestedAt != l.requestedAt then rs
    else
      var e := rs[l.id].(acknowledgedAt := Some(now), asked := if rs[l.id].acknowledgedAt.None? then out else rs[l.id].asked);
      if e.phase.Rebasing? then rs[l.id := e]
      else
        rs[l.id := e.(phase := Queued, expiresAt := now + QUEUED_WAIT,
                      returned := e.returned + (if e.phase.Expired? then 1 else 0))]
  }

  function Pending(rs: Requests): set<Lookup> {
    set id | id in rs && Asks(rs[id]) :: Lookup(id, rs[id].requestedAt)
  }

  function Cleared(rs: Requests, id: Id): Requests {
    if id in rs && rs[id].bot.Renovate? then rs - {id} else rs
  }

  class Registry {
    var botRequests: Requests

    constructor ()
      ensures botRequests == map[]
    {
      botRequests := map[];
    }

    method Record(id: Id, bot: Bot, action: Action, pr: Seen, fetches: nat, now: int)
      modifies this
      ensures botRequests == Recorded(old(botRequests), id, bot, action, pr, fetches, now)
    {
      botRequests := botRequests[id := Request(bot, action, Queued, now, now + QUEUED_WAIT, None, pr.behind, pr.head, fetches, 0, 0)];
    }

    /** Clearing Renovate's box drops the request waiting on it. */
    method ClearBox(id: Id)
      modifies this
      ensures botRequests == Cleared(old(botRequests), id)
    {
      if id in botRequests && botRequests[id].bot == Renovate {
        botRequests := botRequests - {id};
      }
    }

    /** One request of a sweep. */
    method SweepOne(id: Id, n: nat, listed: map<Id, Seen>, cover: Cover, now: int)
      requires id in botRequests
      modifies this
      ensures var left := Swept(old(botRequests)[id], id, n, listed, cover, now);
              botRequests == if left.Some? then old(botRequests)[id := left.value] else old(botRequests) - {id}
    {
      if id !in listed {
        if Covers(cover, id.home) {
          botRequests := botRequests - {id};
        }
      } else {
        var e := new BotEntry(botRequests[id]);
        var keep := e.Advance(listed[id], n, now);
        botRequests := if keep then botRequests[id := e.View()] else botRequests - {id};
      }
    }

    method ApplyBotRequests(n: nat, listed: map<Id, Seen>, cover: Cover, now: int)
      modifies this
      ensures botRequests == Applied(old(botRequests), n, listed, cover, now)
    {
      hide Swept;
      ghost var was := botRequests;
      var all := botRequests.Keys;
      while all != {}
        invariant all <= was.Keys
        invariant forall id :: id in botRequests <==> id in was && (id in all || Swept(was[id], id, n, listed, cover, now).Some?)
        invariant forall id | id in botRequests ::
                    botRequests[id] == if id in all then was[id] else Swept(was[id], id, n, listed, cover, now).value
        decreases |all|
      {
        var id :| id in all;
        SweepOne(id, n, listed, cover, now);
        all := all - {id};
      }
    }

    /** pendingAcks: the requests to ask the forge about. */
    method PendingAcks() returns (out: set<Lookup>)
      ensures out == Pending(botRequests)
    {
      out := {};
      var all := botRequests.Keys;
      while all != {}
        invariant all <= botRequests.Keys
        invariant out == set id | id in botRequests && id !in all && Asks(botRequests[id]) :: Lookup(id, botRequests[id].requestedAt)
        decreases |all|
      {
        var id :| id in all;
        var e := botRequests[id];
        if e.bot == Dependabot && e.action == Rebase && e.acknowledgedAt.None? && e.phase != Rebasing {
          out := out + {Lookup(id, e.requestedAt)};
        }
        all := all - {id};
      }
    }

    method RecordAck(l: Lookup, acknowledged: bool, out: nat, now: int)
      modifies this
      ensures botRequests == if acknowledged then Acknowledged(old(botRequests), l, out, now) else old(botRequests)
    {
      if l.id !in botRequests || botRequests[l.id].requestedAt != l.requestedAt || !acknowledged {
        return;
      }
      var e := botRequests[l.id];
      e := e.(acknowledgedAt := Some(now), asked := if e.acknowledgedAt.None? then out else e.asked);
      if e.phase != Rebasing {
        e := e.(phase := Queued, expiresAt := now + QUEUED_WAIT, returned := e.returned + (if e.phase.Expired? then 1 else 0));
      }
      botRequests := botRequests[l.id := e];
    }
  }

  // ---- One request under sweeps ----

  /** How many moves a request still has ahead of it. */
  function Rank(e: Option<Request>): nat {
    if e.None? then 0 else if e.value.phase.Queued? then 2 else 1
  }

  /** The moment from which a sweep that lists the request must move it. */
  function Due(e: Request): int {
    if e.phase.Expired? then e.expiresAt + EXPIRED_KEEP + 1 else e.expiresAt
  }

  /** What a sweep does to one request, whatever it saw. */
  lemma OneSweep(e: Request, pr: Seen, n: nat, now: int)
    ensures Rank(Advanced(e, pr, n, now)) <= Rank(Some(e))
    ensures Rank(Advanced(e, pr, n, now)) == Rank(Some(e)) ==> Advanced(e, pr, n, now) == Some(e)
    ensures now >= Due(e) ==> Rank(Advanced(e, pr, n, now)) < Rank(Some(e))
  {
  }

  /** A sweep that lists the request: what it saw, its fetch's number, and when it came. */
  datatype Sweep = Sweep(pr: Seen, n: nat, now: int)

  function After(e: Request, sweeps: seq<Sweep>): Option<Request> {
    if sweeps == [] then Some(e)
    else
      var before, last := After(e, sweeps[..|sweeps| - 1]), sweeps[|sweeps| - 1];
      if before.None? then None else Advanced(before.value, last.pr, last.n, last.now)
  }

  predicate InOrder(sweeps: seq<Sweep>) {
    forall i, j | 0 <= i < j < |sweeps| :: sweeps[i].now <= sweeps[j].now
  }

  /** Where a request queued until `e.expiresAt` can stand once the sweeps have come to `now`. */
  predicate OnTheWay(e: Request, r: Request, now: int) {
    && r.after == e.after
    && if r.phase.Rebasing? then r.expiresAt <= now + REBASING_WAIT else r.expiresAt == e.expiresAt
  }

  lemma {:induction false} StaysOnTheWay(e: Request, sweeps: seq<Sweep>)
    requires e.phase.Queued? && InOrder(sweeps) && sweeps != []
    ensures After(e, sweeps).Some? ==> OnTheWay(e, After(e, sweeps).value, sweeps[|sweeps| - 1].now)
  {
    if |sweeps| > 1 {
      StaysOnTheWay(e, sweeps[..|sweeps| - 1]);
    } else {
      assert After(e, sweeps[..|sweeps| - 1]) == Some(e);
    }
  }

  /** What is gone stays gone. */
  lemma {:induction false} GoneStaysGone(e: Request, sweeps: seq<Sweep>, i: nat)
    requires i <= |sweeps| && After(e, sweeps[..i]).None?
    ensures After(e, sweeps).None?
  {
    if i < |sweeps| {
      assert sweeps[..|sweeps| - 1][..i] == sweeps[..i];
      GoneStaysGone(e, sweeps[..|sweeps| - 1], i);
    } else {
      assert sweeps[..i] == sweeps;
    }
  }

  /** A request that has left the queue has its deadline, and no sweep moves that. */
  lemma {:induction false} LeftTheQueue(e: Request, sweeps: seq<Sweep>, i: nat)
    requires i <= |sweeps| && After(e, sweeps[..i]).Some? && !After(e, sweeps[..i]).value.phase.Queued?
    ensures After(e, sweeps).None? || After(e, sweeps) == After(e, sweeps[..i])
  {
    if i < |sweeps| {
      assert sweeps[..|sweeps| - 1][..i] == sweeps[..i];
      LeftTheQueue(e, sweeps[..|sweeps| - 1], i);
    } else {
      assert sweeps[..i] == sweeps;
    }
  }

  /**
   * Nothing keeps a request for good: past its deadline and the keep time one sweep takes it out of
   * the queue, and any sweep two minutes later finds it gone or ends it, whatever came in between.
   */
  lemma EveryRequestEnds(e: Request, sweeps: seq<Sweep>, i: nat)
    requires e.phase.Queued? && InOrder(sweeps) && i < |sweeps| - 1
    requires e.expiresAt + EXPIRED_KEEP < sweeps[i].now && sweeps[i].now + REBASING_WAIT <= sweeps[|sweeps| - 1].now
    ensures After(e, sweeps).None?
  {
    var first, most := sweeps[..i + 1], sweeps[..|sweeps| - 1];
    StaysOnTheWay(e, first);
    assert first[..i] == sweeps[..i] && first[i] == sweeps[i];
    if i > 0 && After(e, sweeps[..i]).Some? {
      StaysOnTheWay(e, sweeps[..i]);
    }
    assert most[..i + 1] == first;
    if After(e, first).None? {
      GoneStaysGone(e, most, i + 1);
    } else {
      LeftTheQueue(e, most, i + 1);
    }
  }

  /**
   * Seconds apart, two sweeps past that time end it unless the first showed it landed, CI not restarted,
   * and the second came too soon.
   */
  lemma TwoSweepsEndIt(e: Request, sweeps: seq<Sweep>)
    requires |sweeps| == 2 && InOrder(sweeps) && e.expiresAt + EXPIRED_KEEP < sweeps[0].now
    ensures After(e, sweeps).None?
            <==> !(&& e.phase.Queued? && Landed(e, sweeps[0].pr, sweeps[0].n) && !sweeps[0].pr.pending
                   && !sweeps[1].pr.pending && sweeps[1].now < sweeps[0].now + REBASING_WAIT)
  {
    assert sweeps[..1][..0] == [];
    assert After(e, sweeps[..1]) == Advanced(e, sweeps[0].pr, sweeps[0].n, sweeps[0].now);
  }

  /** A request leaves the queue as landed only by a fetch that began after it, and one that shows the bot acted. */
  lemma {:induction false} LandsByALaterFetch(e: Request, sweeps: seq<Sweep>) returns (i: nat)
    requires e.phase.Queued? && After(e, sweeps).Some? && After(e, sweeps).value.phase.Rebasing?
    ensures i < |sweeps| && e.after < sweeps[i].n && Landed(e, sweeps[i].pr, sweeps[i].n)
    ensures After(e, sweeps[..i]).Some? && After(e, sweeps[..i]).value == e
  {
    var most := sweeps[..|sweeps| - 1];
    if After(e, most).value.phase.Rebasing? {
      i := LandsByALaterFetch(e, most);
      assert most[..i] == sweeps[..i];
    } else {
      i := |most|;
      QueuedUntouched(e, most);
    }
  }

  lemma {:induction false} QueuedUntouched(e: Request, sweeps: seq<Sweep>)
    requires e.phase.Queued? && After(e, sweeps).Some? && After(e, sweeps).value.phase.Queued?
    ensures After(e, sweeps) == Some(e)
  {
    if sweeps != [] {
      QueuedUntouched(e, sweeps[..|sweeps| - 1]);
    }
  }

  // ---- Acknowledgements, over every run ----

  /** `lookups` are on their way to the forge; a slow one may still be when the next is made. */
  datatype State = State(requests: Requests, lookups: multiset<Lookup>, fetches: nat, now: int)

  datatype Event =
    | Passes(seconds: nat)
    | FetchBegins
    | Makes(id: Id, bot: Bot, action: Action, pr: Seen)
    | Clears(id: Id)
    | Sweeps(n: nat, listed: map<Id, Seen>, cover: Cover)
    | LooksUp
    | Answers(lookup: Lookup, acknowledged: bool)

  function Step(s: State, e: Event): State {
    match e
    case Passes(seconds) => s.(now := s.now + seconds)
    case FetchBegins => s.(fetches := s.fetches + 1)
    case Makes(id, bot, action, pr) => s.(requests := Recorded(s.requests, id, bot, action, pr, s.fetches, s.now))
    case Clears(id) => s.(requests := Cleared(s.requests, id))
    case Sweeps(n, listed, cover) => s.(requests := Applied(s.requests, n, listed, cover, s.now))
    case LooksUp => s.(lookups := s.lookups + multiset(Pending(s.requests)))
    case Answers(l, acknowledged) =>
      if l !in s.lookups then s
      else
        s.(requests := if acknowledged then Acknowledged(s.requests, l, s.lookups[l], s.now) else s.requests,
           lookups := s.lookups - multiset{l})
  }

  const START := State(map[], multiset{}, 0, 0)

  function Exec(events: seq<Event>): State {
    if events == [] then START
    else Step(Exec(events[..|events| - 1]), events[|events| - 1])
  }

  ghost predicate Reachable(s: State) {
    exists events :: s == Exec(events)
  }

  /** The returns a request has had and the lookups that may still bring one fit in those of the first yes. */
  predicate Bounded(e: Request, out: nat) {
    if e.acknowledgedAt.None? then e.returned == 0 else e.returned + out <= e.asked
  }

  ghost predicate Inv(s: State) {
    forall id | id in s.requests :: Bounded(s.requests[id], s.lookups[Lookup(id, s.requests[id].requestedAt)])
  }

  lemma SweptKeeps(e: Request, id: Id, n: nat, listed: map<Id, Seen>, cover: Cover, now: int)
    ensures var left := Swept(e, id, n, listed, cover, now);
            left.Some? ==> left.value == e.(phase := left.value.phase, expiresAt := left.value.expiresAt)
  {
  }

  lemma StepKeeps(s: State, e: Event)
    requires Inv(s)
    ensures Inv(Step(s, e))
  {
    var s' := Step(s, e);
    forall id | id in s'.requests ensures Bounded(s'.requests[id], s'.lookups[Lookup(id, s'.requests[id].requestedAt)]) {
      if id in s.requests {
        assert Bounded(s.requests[id], s.lookups[Lookup(id, s.requests[id].requestedAt)]);
        if e.Sweeps? {
          SweptKeeps(s.requests[id], id, e.n, e.listed, e.cover, s.now);
        }
      }
    }
  }

  lemma {:induction false} ExecInv(events: seq<Event>)
    ensures Inv(Exec(events))
  {
    if events != [] {
      ExecInv(events[..|events| - 1]);
      StepKeeps(Exec(events[..|events| - 1]), events[|events| - 1]);
    }
  }

  /**
   * A request is brought back from expired at most once for each lookup that was out when the forge
   * first said yes: once, where lookups do not overlap, and never before that first yes.
   */
  lemma ReturnsAreBounded(s: State, id: Id)
    requires Reachable(s) && id in s.requests
    ensures s.requests[id].returned <= if s.requests[id].acknowledgedAt.None? then 0 else s.requests[id].asked
  {
    var events :| s == Exec(events);
    ExecInv(events);
    assert Bounded(s.requests[id], s.lookups[Lookup(id, s.requests[id].requestedAt)]);
  }

  /** Nothing but a yes to a lookup of its own moves a request back; all else moves it on, or replaces it. */
  lemma OnlyAYesGoesBack(s: State, e: Event, id: Id)
    requires id in s.requests
    ensures var left := if id in Step(s, e).requests then Some(Step(s, e).requests[id]) else None;
            Rank(left) > Rank(Some(s.requests[id])) ==>
              || e.Makes?
              || (e.Answers? && e.acknowledged && e.lookup in s.lookups && e.lookup == Lookup(id, s.requests[id].requestedAt)
                  && s.requests[id].phase.Expired?)
  {
    if e.Sweeps? && id in e.listed {
      OneSweep(s.requests[id], e.listed[id], e.n, s.now);
    }
  }

  /** The same request, made at `at` and answered yes, still stands. */
  ghost predicate SaidYes(s: State, id: Id, at: int) {
    id in s.requests && s.requests[id].requestedAt == at && s.requests[id].acknowledgedAt.Some?
  }

  lemma NoNewLookup(s: State, e: Event, id: Id, at: int)
    requires SaidYes(s, id, at) && !(e.Makes? && e.id == id)
    ensures SaidYes(Step(s, e), id, at) || id !in Step(s, e).requests
    ensures Step(s, e).lookups[Lookup(id, at)] <= s.lookups[Lookup(id, at)]
  {
    if e.LooksUp? {
      assert Lookup(id, at) !in Pending(s.requests);
    }
    if e.Sweeps? {
      SweptKeeps(s.requests[id], id, e.n, e.listed, e.cover, s.now);
    }
  }

  ghost predicate NoneMade(events: seq<Event>, from: nat, id: Id) {
    forall i | from <= i < |events| :: !(events[i].Makes? && events[i].id == id)
  }

  /** Once a forge has said yes, no further lookup is ever made for the request: those on their way only dwindle. */
  lemma {:induction false} NoLookupAfterAYes(events: seq<Event>, from: nat, id: Id, at: int)
    requires from <= |events| && SaidYes(Exec(events[..from]), id, at) && NoneMade(events, from, id)
    ensures SaidYes(Exec(events), id, at) || id !in Exec(events).requests
    ensures Exec(events).lookups[Lookup(id, at)] <= Exec(events[..from]).lookups[Lookup(id, at)]
  {
    if from == |events| {
      assert events[..from] == events;
    } else {
      var most, last := events[..|events| - 1], events[|events| - 1];
      assert most[..from] == events[..from];
      NoLookupAfterAYes(most, from, id, at);
      if SaidYes(Exec(most), id, at) {
        NoNewLookup(Exec(most), last, id, at);
      } else {
        GoneAsksNothing(Exec(most), last, id, at);
      }
    }
  }

  lemma GoneAsksNothing(s: State, e: Event, id: Id, at: int)
    requires id !in s.requests && !(e.Makes? && e.id == id)
    ensures id !in Step(s, e).requests && Step(s, e).lookups[Lookup(id, at)] <= s.lookups[Lookup(id, at)]
  {
    if e.LooksUp? {
      assert Lookup(id, at) !in Pending(s.requests);
    }
  }

  // ---- A request from when it is made, by event positions ----

  /** What a fetch shows against what the request saw: a new head, or behind no longer. */
  predicate ShowsActed(made: Seen, pr: Seen) {
    (made.head != "" && pr.head != made.head) || (made.behind && !pr.behind)
  }

  function StateAt(events: seq<Event>, i: nat): State
    requires i <= |events|
  {
    Exec(events[..i])
  }

  /** The request as it is made at `i`. */
  function Made(events: seq<Event>, i: nat): Request
    requires i < |events| && events[i].Makes?
  {
    var s, e := StateAt(events, i), events[i];
    Request(e.bot, e.action, Queued, s.now, s.now + QUEUED_WAIT, None, e.pr.behind, e.pr.head, s.fetches, 0, 0)
  }

  /** Nothing about the event at `j` answers or ends the request made at `i`. */
  ghost predicate LeavesQueued(events: seq<Event>, i: nat, j: nat)
    requires i < j < |events| && events[i].Makes?
  {
    var id, before, s := events[i].id, StateAt(events, i), StateAt(events, j);
    match events[j]
    case Makes(other, _, _, _) => other != id
    case Clears(other) => other != id || events[i].bot.Dependabot?
    case Answers(l, acknowledged) => l.id != id || !acknowledged
    case Sweeps(n, listed, cover) =>
      if id in listed
      then s.now < before.now + QUEUED_WAIT && (n <= before.fetches || !ShowsActed(events[i].pr, listed[id]))
      else !Covers(cover, id.home)
    case _ => true
  }

  lemma NextState(events: seq<Event>, i: nat)
    requires i < |events|
    ensures StateAt(events, i + 1) == Step(StateAt(events, i), events[i])
  {
    assert events[..i + 1][..i] == events[..i];
  }

  /** How many fetches have begun. */
  function Begun(events: seq<Event>): nat {
    if events == [] then 0
    else Begun(events[..|events| - 1]) + (if events[|events| - 1].FetchBegins? then 1 else 0)
  }

  /** The number a request is made under is that of the newest fetch begun. */
  lemma {:induction false} MadeUnder(events: seq<Event>)
    ensures Exec(events).fetches == Begun(events)
  {
    if events != [] {
      MadeUnder(events[..|events| - 1]);
    }
  }

  /**
   * A request stays queued, as it was made, for ten minutes: until a fetch that began after it shows
   * that the bot acted, the bot says yes, or the pull request is gone. A fetch that began before shows
   * nothing, whatever it read.
   */
  lemma {:induction false} StaysQueued(events: seq<Event>, i: nat, m: nat)
    requires i < m <= |events| && events[i].Makes?
    requires forall j | i < j < m :: LeavesQueued(events, i, j)
    ensures var id := events[i].id;
      id in StateAt(events, m).requests && StateAt(events, m).requests[id] == Made(events, i)
  {
    hide Exec, Step;
    NextState(events, m - 1);
    if i < m - 1 {
      StaysQueued(events, i, m - 1);
      LeftQueued(events, i, m - 1);
    } else {
      MadeNow(StateAt(events, i), events[i]);
    }
  }

  lemma MadeNow(s: State, e: Event)
    requires e.Makes?
    ensures e.id in Step(s, e).requests
    ensures Step(s, e).requests[e.id]
         == Request(e.bot, e.action, Queued, s.now, s.now + QUEUED_WAIT, None, e.pr.behind, e.pr.head, s.fetches, 0, 0)
  {
  }

  lemma LeftQueued(events: seq<Event>, i: nat, j: nat)
    requires i < j < |events| && events[i].Makes? && LeavesQueued(events, i, j)
    requires events[i].id in StateAt(events, j).requests && StateAt(events, j).requests[events[i].id] == Made(events, i)
    ensures var after := Step(StateAt(events, j), events[j]).requests;
      events[i].id in after && after[events[i].id] == Made(events, i)
  {
    hide StateAt, Applied, Acknowledged, Cleared;
    var s, id := StateAt(events, j), events[i].id;
    match events[j]
    case Sweeps(n, listed, cover) => SweepLeaves(s.requests, id, n, listed, cover, s.now);
    case Answers(l, acknowledged) =>
      if acknowledged { YesLeaves(s.requests, l, s.lookups[l], s.now, id); }
    case Clears(other) => ClearLeaves(s.requests, other, id);
    case _ =>
  }

  lemma SweepLeaves(rs: Requests, id: Id, n: nat, listed: map<Id, Seen>, cover: Cover, now: int)
    requires id in rs && Swept(rs[id], id, n, listed, cover, now) == Some(rs[id])
    ensures id in Applied(rs, n, listed, cover, now) && Applied(rs, n, listed, cover, now)[id] == rs[id]
  {
  }

  lemma YesLeaves(rs: Requests, l: Lookup, out: nat, now: int, id: Id)
    requires id in rs && l.id != id
    ensures id in Acknowledged(rs, l, out, now) && Acknowledged(rs, l, out, now)[id] == rs[id]
  {
  }

  lemma ClearLeaves(rs: Requests, other: Id, id: Id)
    requires id in rs && (other == id ==> rs[id].bot.Dependabot?)
    ensures id in Cleared(rs, other) && Cleared(rs, other)[id] == rs[id]
  {
  }

  /** And no longer: a sweep that lists it then takes it on, by what a later fetch shows or by the clock. */
  lemma LeavesTheQueue(events: seq<Event>, i: nat, m: nat)
    requires i < m < |events| && events[i].Makes? && events[m].Sweeps? && events[i].id in events[m].listed
    requires forall j | i < j < m :: LeavesQueued(events, i, j)
    ensures var id, pr := events[i].id, events[m].listed[events[i].id];
      var before, s, after := StateAt(events, i), StateAt(events, m), StateAt(events, m + 1);
      var acted := before.fetches < events[m].n && ShowsActed(events[i].pr, pr);
      && (acted && pr.pending ==> id !in after.requests)
      && (acted && !pr.pending ==>
            id in after.requests && after.requests[id] == Made(events, i).(phase := Rebasing, expiresAt := s.now + REBASING_WAIT))
      && (!acted && before.now + QUEUED_WAIT <= s.now ==>
            id in after.requests && after.requests[id] == Made(events, i).(phase := Expired))
  {
    hide Exec;
    StaysQueued(events, i, m);
    NextState(events, m);
  }

  /** A request that has landed is kept until CI restarts or two minutes pass, and an expired one for an hour. */
  lemma KeptAfterwards(s: State, id: Id, n: nat, listed: map<Id, Seen>, cover: Cover)
    requires id in s.requests && !s.requests[id].phase.Queued? && id in listed
    ensures var e, after := s.requests[id], Step(s, Sweeps(n, listed, cover)).requests;
      && (id in after ==> after[id] == e)
      && (id !in after <==> if e.phase.Rebasing? then listed[id].pending || e.expiresAt <= s.now
                            else e.expiresAt + EXPIRED_KEEP < s.now)
  {
  }

  /** A look asks the forge about exactly the rebases Dependabot has not acknowledged and not begun. */
  lemma AsksAbout(s: State, id: Id, at: int)
    ensures Step(s, LooksUp).lookups[Lookup(id, at)] == s.lookups[Lookup(id, at)]
      + (if id in s.requests && s.requests[id].requestedAt == at && s.requests[id].bot == Dependabot && s.requests[id].action == Rebase
            && s.requests[id].acknowledgedAt == None && s.requests[id].phase != Rebasing then 1 else 0)
  {
    assert Lookup(id, at) in Pending(s.requests) <==> id in s.requests && Asks(s.requests[id]) && s.requests[id].requestedAt == at;
  }

  /** A yes is recorded on the request it was asked for and on no other, and one not yet rebasing waits anew. */
  lemma AYesCounts(s: State, l: Lookup, id: Id)
    requires l in s.lookups && id in s.requests
    ensures var e, after := s.requests[id], Step(s, Answers(l, true)).requests;
      && id in after
      && (if l != Lookup(id, e.requestedAt) then after[id] == e
          else && after[id].acknowledgedAt == Some(s.now)
               && after[id].phase == (if e.phase == Rebasing then Rebasing else Queued)
               && after[id].expiresAt == (if e.phase == Rebasing then e.expiresAt else s.now + QUEUED_WAIT))
  {
  }

  // Two lookups that overlap

  lemma StepReachable(s: State, e: Event)
    requires Reachable(s)
    ensures Reachable(Step(s, e))
  {
    var events :| s == Exec(events);
    assert (events + [e])[..|events + [e]| - 1] == events;
    assert Exec(events + [e]) == Step(s, e);
  }

  function AskedTwice(id: Id, pr: Seen): State {
    State(map[id := Request(Dependabot, Rebase, Queued, 0, QUEUED_WAIT, None, pr.behind, pr.head, 0, 0, 0)],
          multiset{Lookup(id, 0), Lookup(id, 0)}, 0, 0)
  }

  lemma AskedTwiceReachable(id: Id, pr: Seen)
    ensures Reachable(AskedTwice(id, pr))
  {
    assert Exec([]) == START;
    var made := Step(START, Makes(id, Dependabot, Rebase, pr));
    StepReachable(START, Makes(id, Dependabot, Rebase, pr));
    var e := made.requests[id];
    assert id in made.requests && Asks(e) && Lookup(id, e.requestedAt) == Lookup(id, 0);
    assert made.requests.Keys == {id};
    assert Pending(made.requests) == {Lookup(id, 0)};
    StepReachable(made, LooksUp);
    StepReachable(Step(made, LooksUp), LooksUp);
    assert Step(Step(made, LooksUp), LooksUp) == AskedTwice(id, pr);
  }

  function TimesOut(s: State): State {
    Step(s, Passes(QUEUED_WAIT))
  }

  function Swept0(s: State, id: Id, pr: Seen): State {
    Step(s, Sweeps(0, map[id := pr], Forges({})))
  }

  /** The request's time runs out, a sweep expires it, and one of its lookups answers yes. */
  function RunsOut(s: State, id: Id, pr: Seen): State {
    Step(Swept0(TimesOut(s), id, pr), Answers(Lookup(id, 0), true))
  }

  lemma RunsOutReachable(s: State, id: Id, pr: Seen)
    requires Reachable(s)
    ensures Reachable(RunsOut(s, id, pr))
  {
    hide Step, Reachable;
    StepReachable(s, Passes(QUEUED_WAIT));
    StepReachable(TimesOut(s), Sweeps(0, map[id := pr], Forges({})));
    StepReachable(Swept0(TimesOut(s), id, pr), Answers(Lookup(id, 0), true));
  }

  lemma Expires(e: Request, id: Id, pr: Seen, now: int)
    requires e.phase.Queued? && e.expiresAt <= now
    ensures Applied(map[id := e], 0, map[id := pr], Forges({}), now) == map[id := e.(phase := Expired)]
  {
  }

  /** So a request whose time is up comes back, as long as a lookup of it is out. */
  lemma ComesBack(s: State, id: Id, pr: Seen, e: Request)
    requires s.requests == map[id := e] && Lookup(id, 0) in s.lookups
    requires e.phase.Queued? && e.requestedAt == 0 && e.expiresAt <= s.now + QUEUED_WAIT
    ensures var after := RunsOut(s, id, pr);
      && after.now == s.now + QUEUED_WAIT && after.lookups == s.lookups - multiset{Lookup(id, 0)}
      && after.requests.Keys == {id} && after.requests[id].phase.Queued? && after.requests[id].requestedAt == 0
      && after.requests[id].expiresAt == after.now + QUEUED_WAIT && after.requests[id].returned == e.returned + 1
  {
    hide Applied;
    Expires(e, id, pr, s.now + QUEUED_WAIT);
    assert Swept0(TimesOut(s), id, pr).requests == map[id := e.(phase := Expired)];
  }

  /** So two lookups out at once can bring one request back twice. */
  lemma TwoLookupsReturnTwice(id: Id, pr: Seen)
    ensures var s := RunsOut(RunsOut(AskedTwice(id, pr), id, pr), id, pr);
            Reachable(s) && id in s.requests && s.requests[id].returned == 2 && s.requests[id].phase.Queued?
  {
    hide RunsOut;
    var start := AskedTwice(id, pr);
    var once := RunsOut(start, id, pr);
    AskedTwiceReachable(id, pr);
    RunsOutReachable(start, id, pr);
    RunsOutReachable(once, id, pr);
    ComesBack(start, id, pr, start.requests[id]);
    assert once.requests == map[id := once.requests[id]];
    ComesBack(once, id, pr, once.requests[id]);
  }

  // ---- What takes a request off the registry ----

  /**
   * A sweep drops an unlisted request exactly where its fetch covers the repository, and keeps it as it
   * is anywhere else; a fetch that answered for others says nothing of it.
   */
  lemma UnlistedFares(s: State, id: Id, n: nat, listed: map<Id, Seen>, cover: Cover)
    requires id in s.requests && id !in listed
    ensures var after := Step(s, Sweeps(n, listed, cover)).requests;
      && (id in after <==> match cover case Forges(fs) => id.home.forge !in fs case Repo(k) => k != id.home)
      && (id in after ==> after[id] == s.requests[id])
  {
  }

  /** Clearing the box takes Renovate's request off and no other. */
  lemma ClearingTakes(s: State, box: Id, id: Id)
    requires id in s.requests
    ensures var after := Step(s, Clears(box)).requests;
      && (id !in after <==> id == box && s.requests[id].bot == Renovate)
      && (id in after ==> after[id] == s.requests[id])
  {
  }
}
