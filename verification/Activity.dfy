/** Whether anyone is using the dashboard, and the one wake that is owed when somebody comes back.

    The open tabs are a bounded table, and the oldest makes room for a new one. */
module Activities {
  import opened Prelude

  type Viewer = string

  // Seconds.
  const PRESENCE_TTL := 180
  const MAX_VIEWERS := 32

  type Viewers = map<Viewer, int>

  predicate Here(seen: int, now: int) {
    now - seen < PRESENCE_TTL
  }

  /** No tab holds the dashboard, and nothing has used it for the idle period; zero turns idling off. */
  ghost predicate Idle(viewers: Viewers, lastUsed: int, idleAfter: int, now: int) {
    idleAfter > 0 && (forall v | v in viewers :: !Here(viewers[v], now)) && now - lastUsed >= idleAfter
  }

  function HereOnes(viewers: Viewers, now: int): Viewers {
    map v | v in viewers && Here(viewers[v], now) :: viewers[v]
  }

  /**
   * What a look leaves of the tabs. It goes over them in any order and forgets those that have gone,
   * until it meets one that has not: `forgets` says which it came to before that.
   */
  function Looked(viewers: Viewers, forgets: set<Viewer>, idleAfter: int, now: int): Viewers {
    if idleAfter <= 0 then viewers
    else if HereOnes(viewers, now) == map[] then map[]
    else map v | v in viewers && (v in forgets ==> Here(viewers[v], now)) :: viewers[v]
  }

  ghost predicate LongestAgo(viewers: Viewers, v: Viewer) {
    v in viewers && forall w | w in viewers :: viewers[v] <= viewers[w]
  }

  /** The loop of dropOldestLocked, over the tabs in any order; the empty id stands for none seen yet. */
  method Oldest(viewers: Viewers) returns (oldest: Viewer)
    requires viewers != map[]
    ensures oldest in viewers
    ensures "" !in viewers ==> LongestAgo(viewers, oldest)
  {
    oldest := "";
    var oldestSeen := 0;
    var left := viewers.Keys;
    while left != {}
      invariant left <= viewers.Keys
      invariant if left == viewers.Keys then oldest == "" else oldest in viewers && viewers[oldest] == oldestSeen
      invariant "" !in viewers ==> forall w | w in viewers && w !in left :: oldestSeen <= viewers[w]
      decreases |left|
    {
      var v :| v in left;
      if oldest == "" || viewers[v] < oldestSeen {
        oldest, oldestSeen := v, viewers[v];
      }
      left := left - {v};
    }
    assert left != viewers.Keys by {
      var v :| v in viewers;
      assert v in viewers.Keys;
    }
  }

  /** The tabs, the last use, and whether a wake waits to be read. */
  datatype Board = Board(viewers: Viewers, lastUsed: int, wake: bool)

  /** A use at `now`. */
  ghost function Touched(b: Board, idleAfter: int, forgets: set<Viewer>, now: int): Board {
    Board(Looked(b.viewers, forgets, idleAfter, now), now, b.wake || Idle(b.viewers, b.lastUsed, idleAfter, now))
  }

  /** Whether a tab must go for `viewer` to be held. */
  predicate Full(viewers: Viewers, viewer: Viewer, now: int) {
    viewer !in HereOnes(viewers, now) && |HereOnes(viewers, now)| >= MAX_VIEWERS
  }

  /** A visible report: the gone tabs are forgotten, and `drop` makes room if need be. */
  ghost function Shown(b: Board, idleAfter: int, viewer: Viewer, drop: Viewer, now: int): Board {
    var here := HereOnes(b.viewers, now);
    Board((if Full(b.viewers, viewer, now) then here - {drop} else here)[viewer := now], now,
          b.wake || Idle(b.viewers, b.lastUsed, idleAfter, now))
  }

  /** A hidden report: one from a tab not known changes nothing. */
  function Hidden(b: Board, viewer: Viewer, now: int): Board {
    if viewer in b.viewers then b.(viewers := b.viewers - {viewer}, lastUsed := now) else b
  }

  class Activity {
    const idleAfter: int
    var lastUsed: int
    var viewers: Viewers
    var wake: bool

    function View(): Board
      reads this
    {
      Board(viewers, lastUsed, wake)
    }

    ghost predicate Valid()
      reads this
    {
      |viewers| <= MAX_VIEWERS
    }

    constructor (idleAfter: int, now: int)
      ensures Valid() && View() == Board(map[], now, false) && this.idleAfter == idleAfter
    {
      this.idleAfter, lastUsed, viewers, wake := idleAfter, now, map[], false;
    }

    /** idleLocked. */
    method IdleLocked(now: int) returns (idle: bool, ghost forgets: set<Viewer>)
      modifies this`viewers
      ensures idle == Idle(old(viewers), lastUsed, idleAfter, now)
      ensures viewers == Looked(old(viewers), forgets, idleAfter, now)
      ensures |viewers| <= |old(viewers)|
    {
      forgets := {};
      if idleAfter <= 0 {
        return false, forgets;
      }
      var left := viewers.Keys;
      while left != {}
        invariant left <= viewers.Keys && |viewers| <= |old(viewers)|
        invariant forgets + viewers.Keys == old(viewers).Keys && forgets !! viewers.Keys
        invariant forall v | v in viewers :: v in left && viewers[v] == old(viewers)[v]
        invariant forall v | v in forgets :: !Here(old(viewers)[v], now)
        decreases |left|
      {
        var v :| v in left;
        if Here(viewers[v], now) {
          assert v in HereOnes(old(viewers), now);
          return false, forgets;
        }
        Fewer(viewers, v);
        viewers := viewers - {v};
        left := left - {v};
        forgets := forgets + {v};
      }
      assert HereOnes(old(viewers), now) == map[];
      idle := now - lastUsed >= idleAfter;
    }

    method Touch(now: int)
      requires Valid()
      modifies this
      ensures Valid()
      ensures exists forgets :: View() == Touched(old(View()), idleAfter, forgets, now)
    {
      var wasIdle, forgets := IdleLocked(now);
      lastUsed := now;
      if wasIdle {
        wake := true;
      }
      assert View() == Touched(old(View()), idleAfter, forgets, now);
    }

    method Present(viewer: Viewer, visible: bool, now: int)
      requires Valid()
      modifies this
      ensures Valid()
      ensures visible ==> exists drop ::
        && View() == Shown(old(View()), idleAfter, viewer, drop, now)
        && (Full(old(viewers), viewer, now) ==>
              drop in HereOnes(old(viewers), now) && ("" !in old(viewers) ==> LongestAgo(HereOnes(old(viewers), now), drop)))
      ensures !visible ==> View() == Hidden(old(View()), viewer, now)
    {
      if !visible {
        if viewer in viewers {
          Fewer(viewers, viewer);
          viewers := viewers - {viewer};
          lastUsed := now;
        }
        return;
      }
      var wasIdle, forgets := IdleLocked(now);
      HereAfterLook(old(viewers), forgets, idleAfter, now);
      Prune(now);
      ghost var drop := viewer;
      if viewer !in viewers && |viewers| >= MAX_VIEWERS {
        drop := DropOldest();
      }
      OneMore(viewers, viewer, now);
      viewers := viewers[viewer := now];
      lastUsed := now;
      if wasIdle {
        wake := true;
      }
      assert View() == Shown(old(View()), idleAfter, viewer, drop, now);
    }

    method Prune(now: int)
      modifies this`viewers
      ensures viewers == HereOnes(old(viewers), now)
      ensures |viewers| <= |old(viewers)|
    {
      var left := viewers.Keys;
      while left != {}
        invariant left <= viewers.Keys && |viewers| <= |old(viewers)|
        invariant forall v :: v in viewers <==> v in old(viewers) && (v in left || Here(old(viewers)[v], now))
        invariant forall v | v in viewers :: viewers[v] == old(viewers)[v]
        decreases |left|
      {
        var v :| v in left;
        if !Here(viewers[v], now) {
          Fewer(viewers, v);
          viewers := viewers - {v};
        }
        left := left - {v};
      }
    }

    /** A tab is dropped, and where every id is nonempty, as the API demands, the one heard from longest ago. */
    method DropOldest() returns (ghost drop: Viewer)
      requires viewers != map[]
      modifies this`viewers
      ensures drop in old(viewers) && viewers == old(viewers) - {drop}
      ensures "" !in old(viewers) ==> LongestAgo(old(viewers), drop)
      ensures |viewers| < |old(viewers)|
    {
      var oldest := Oldest(viewers);
      Fewer(viewers, oldest);
      viewers := viewers - {oldest};
      drop := oldest;
    }

    method Reset(now: int)
      requires Valid()
      modifies this
      ensures Valid() && View() == Board(map[], now, false)
    {
      viewers, lastUsed := map[], now;
      DrainWake();
    }

    /** Discards a wake nobody has read; a reader takes it the same way. */
    method DrainWake()
      modifies this`wake
      ensures !wake
    {
      wake := false;
    }
  }

  lemma HereAfterLook(viewers: Viewers, forgets: set<Viewer>, idleAfter: int, now: int)
    ensures HereOnes(Looked(viewers, forgets, idleAfter, now), now) == HereOnes(viewers, now)
  {
  }

  lemma Fewer(viewers: Viewers, v: Viewer)
    requires v in viewers
    ensures |viewers - {v}| == |viewers| - 1
  {
    assert (viewers - {v}).Keys == viewers.Keys - {v};
    assert |viewers| == |viewers.Keys| && |viewers - {v}| == |(viewers - {v}).Keys|;
  }

  lemma OneMore(viewers: Viewers, v: Viewer, seen: int)
    ensures |viewers[v := seen]| == |viewers| + (if v in viewers then 0 else 1)
  {
    assert viewers[v := seen].Keys == viewers.Keys + {v};
    assert |viewers| == |viewers.Keys| && |viewers[v := seen]| == |viewers[v := seen].Keys|;
  }

  // ---- Every run of reports, looks and reads of the wake ----

  /** The clock does not run backwards: `now` is the last event's time. */
  datatype State = State(board: Board, now: int)

  datatype Event =
    | Looks(at: int, forgets: set<Viewer>)
    | Touches(at: int, forgets: set<Viewer>)
    | Shows(at: int, viewer: Viewer, drop: Viewer)
    | Hides(at: int, viewer: Viewer)
    | Resets(at: int)
    | Takes(at: int)

  /** An event out of time, or that would drop another tab than the oldest, changes nothing. */
  ghost predicate Enabled(s: State, e: Event) {
    && s.now <= e.at
    && (e.Shows? && Full(s.board.viewers, e.viewer, e.at) ==> LongestAgo(HereOnes(s.board.viewers, e.at), e.drop))
  }

  ghost function Done(b: Board, idleAfter: int, e: Event): Board {
    match e
    case Looks(at, forgets) => b.(viewers := Looked(b.viewers, forgets, idleAfter, at))
    case Touches(at, forgets) => Touched(b, idleAfter, forgets, at)
    case Shows(at, viewer, drop) => Shown(b, idleAfter, viewer, drop, at)
    case Hides(at, viewer) => Hidden(b, viewer, at)
    case Resets(at) => Board(map[], at, false)
    case Takes(at) => b.(wake := false)
  }

  ghost function Step(idleAfter: int, s: State, e: Event): State {
    if Enabled(s, e) then State(Done(s.board, idleAfter, e), e.at) else s
  }

  ghost function Exec(idleAfter: int, now: int, events: seq<Event>): State {
    if events == [] then State(Board(map[], now, false), now)
    else Step(idleAfter, Exec(idleAfter, now, events[..|events| - 1]), events[|events| - 1])
  }

  // The wake

  ghost predicate FindsIdle(idleAfter: int, s: State, e: Event) {
    Enabled(s, e) && (e.Touches? || e.Shows?) && Idle(s.board.viewers, s.board.lastUsed, idleAfter, e.at)
  }

  ghost predicate Clears(s: State, e: Event) {
    Enabled(s, e) && (e.Takes? || e.Resets?)
  }

  /** The `i`th event is a use that found the dashboard idle, and its wake has not been read or discarded since. */
  ghost predicate Owed(idleAfter: int, now: int, events: seq<Event>, i: nat)
    requires i < |events|
  {
    && FindsIdle(idleAfter, Exec(idleAfter, now, events[..i]), events[i])
    && forall j | i < j < |events| :: !Clears(Exec(idleAfter, now, events[..j]), events[j])
  }

  lemma OwedNext(idleAfter: int, now: int, events: seq<Event>, i: nat)
    requires i < |events| - 1
    ensures var most, last := events[..|events| - 1], events[|events| - 1];
      Owed(idleAfter, now, events, i) <==> Owed(idleAfter, now, most, i) && !Clears(Exec(idleAfter, now, most), last)
  {
    var most := events[..|events| - 1];
    assert forall j | 0 <= j < |most| :: most[..j] == events[..j] && most[j] == events[j];
    assert events[..|most|] == most;
  }

  /**
   * Over every run: a wake waits exactly when some use found the dashboard idle and nobody has read or
   * discarded the wake since. So use while active places none, and one waits however many were owed.
   */
  lemma {:induction false} WakeIff(idleAfter: int, now: int, events: seq<Event>)
    ensures Exec(idleAfter, now, events).board.wake <==> exists i | 0 <= i < |events| :: Owed(idleAfter, now, events, i)
  {
    if events != [] {
      var most, last := events[..|events| - 1], events[|events| - 1];
      var s := Exec(idleAfter, now, most);
      WakeIff(idleAfter, now, most);
      assert events[..|most|] == most;
      forall i: nat | i < |most|
        ensures Owed(idleAfter, now, events, i) <==> Owed(idleAfter, now, most, i) && !Clears(s, last)
      {
        OwedNext(idleAfter, now, events, i);
      }
      assert Owed(idleAfter, now, events, |most|) <==> FindsIdle(idleAfter, s, last);
      WakeNext(idleAfter, s, last);
    }
  }

  lemma WakeNext(idleAfter: int, s: State, e: Event)
    ensures Step(idleAfter, s, e).board.wake <==> (s.board.wake && !Clears(s, e)) || FindsIdle(idleAfter, s, e)
  {
  }

  // Which tabs a look forgets

  /** The same last use, the same wake, and the same tabs that have not gone: no look tells them apart. */
  ghost predicate Agree(s: State, t: State) {
    && s.now == t.now && s.board.lastUsed == t.board.lastUsed && s.board.wake == t.board.wake
    && HereOnes(s.board.viewers, s.now) == HereOnes(t.board.viewers, t.now)
  }

  lemma HereLater(viewers: Viewers, now: int, later: int)
    requires now <= later
    ensures HereOnes(HereOnes(viewers, now), later) == HereOnes(viewers, later)
  {
  }

  lemma IdleByTheHere(viewers: Viewers, lastUsed: int, idleAfter: int, now: int)
    ensures Idle(viewers, lastUsed, idleAfter, now)
      <==> idleAfter > 0 && HereOnes(viewers, now) == map[] && now - lastUsed >= idleAfter
  {
    if v :| v in viewers && Here(viewers[v], now) {
      assert v in HereOnes(viewers, now);
    }
  }

  /** States that agree go on to answer alike. */
  lemma AgreeingAnswerAlike(idleAfter: int, s: State, t: State, now: int)
    requires Agree(s, t) && s.now <= now
    ensures Idle(s.board.viewers, s.board.lastUsed, idleAfter, now) == Idle(t.board.viewers, t.board.lastUsed, idleAfter, now)
    ensures HereOnes(s.board.viewers, now) == HereOnes(t.board.viewers, now)
  {
    HereLater(s.board.viewers, s.now, now);
    HereLater(t.board.viewers, t.now, now);
    IdleByTheHere(s.board.viewers, s.board.lastUsed, idleAfter, now);
    IdleByTheHere(t.board.viewers, t.board.lastUsed, idleAfter, now);
  }

  /** The same event, but for which gone tabs a look comes to. */
  predicate SameEvent(e: Event, f: Event) {
    e == f || (e.Looks? && f.Looks? && e.at == f.at) || (e.Touches? && f.Touches? && e.at == f.at)
  }

  /** A hidden report comes from a tab the dashboard does not know or has heard from lately. */
  predicate Timely(s: State, e: Event) {
    e.Hides? && e.viewer in s.board.viewers ==> Here(s.board.viewers[e.viewer], e.at)
  }

  lemma HidesAgree(s: State, t: State, e: Event)
    requires Agree(s, t) && e.Hides? && s.now <= e.at && Timely(s, e) && Timely(t, e)
    ensures Agree(State(Hidden(s.board, e.viewer, e.at), e.at), State(Hidden(t.board, e.viewer, e.at), e.at))
  {
    HereLater(s.board.viewers, s.now, e.at);
    HereLater(t.board.viewers, t.now, e.at);
    assert e.viewer in s.board.viewers <==> e.viewer in HereOnes(s.board.viewers, e.at);
    assert e.viewer in t.board.viewers <==> e.viewer in HereOnes(t.board.viewers, e.at);
    assert HereOnes(s.board.viewers - {e.viewer}, e.at) == HereOnes(s.board.viewers, e.at) - {e.viewer};
    assert HereOnes(t.board.viewers - {e.viewer}, e.at) == HereOnes(t.board.viewers, e.at) - {e.viewer};
  }

  lemma StepsAgree(idleAfter: int, s: State, t: State, e: Event, f: Event)
    requires Agree(s, t) && SameEvent(e, f) && Timely(s, e) && Timely(t, f)
    ensures Agree(Step(idleAfter, s, e), Step(idleAfter, t, f))
  {
    if s.now <= e.at {
      AgreeingAnswerAlike(idleAfter, s, t, e.at);
      match e
      case Looks(at, forgets) =>
        HereAfterLook(s.board.viewers, forgets, idleAfter, at);
        HereAfterLook(t.board.viewers, f.forgets, idleAfter, at);
      case Touches(at, forgets) =>
        HereAfterLook(s.board.viewers, forgets, idleAfter, at);
        HereAfterLook(t.board.viewers, f.forgets, idleAfter, at);
      case Hides(_, _) => HidesAgree(s, t, e);
      case _ =>
    }
  }

  /**
   * Over every run: which gone tabs the looks forget, and in what order they go over them, changes no
   * answer and no wake, as long as each hidden report comes from a tab still counted or not known.
   */
  lemma {:induction false} LooksDoNotMatter(idleAfter: int, now: int, es: seq<Event>, fs: seq<Event>)
    requires |es| == |fs| && forall i | 0 <= i < |es| :: SameEvent(es[i], fs[i])
    requires forall i | 0 <= i < |es| :: Timely(Exec(idleAfter, now, es[..i]), es[i]) && Timely(Exec(idleAfter, now, fs[..i]), fs[i])
    ensures Agree(Exec(idleAfter, now, es), Exec(idleAfter, now, fs))
  {
    if es != [] {
      var n := |es| - 1;
      assert forall i | 0 <= i < n :: es[..n][..i] == es[..i] && fs[..n][..i] == fs[..i];
      LooksDoNotMatter(idleAfter, now, es[..n], fs[..n]);
      StepsAgree(idleAfter, Exec(idleAfter, now, es[..n]), Exec(idleAfter, now, fs[..n]), es[n], fs[n]);
    }
  }

  /**
   * A late hidden report does tell: from a tab that has gone, it starts the idle period anew exactly
   * when no look has forgotten the tab. So two dashboards that agreed, one of which has forgotten it,
   * still agree exactly when the last use was that very moment.
   */
  lemma ALateHideTellsIff(s: State, t: State, viewer: Viewer, at: int)
    requires Agree(s, t) && s.now <= at
    requires viewer in s.board.viewers && viewer !in t.board.viewers
    ensures Hidden(t.board, viewer, at) == t.board && Hidden(s.board, viewer, at).lastUsed == at
    ensures Agree(State(Hidden(s.board, viewer, at), at), State(Hidden(t.board, viewer, at), at)) <==> s.board.lastUsed == at
  {
    HereLater(s.board.viewers, s.now, at);
    HereLater(t.board.viewers, t.now, at);
    assert viewer !in HereOnes(t.board.viewers, s.now);
    assert viewer !in HereOnes(s.board.viewers, at);
    assert HereOnes(s.board.viewers - {viewer}, at) == HereOnes(s.board.viewers, at);
  }

  /** Which it is the order of the tabs decides: with one gone and one not, a look may forget the gone one or not. */
  lemma TheOrderDecides(idleAfter: int, gone: Viewer, here: Viewer)
    requires idleAfter > 0 && gone != here
    ensures var shown := [Shows(0, gone, gone), Shows(PRESENCE_TTL - 1, here, here)];
      var a := Exec(idleAfter, 0, shown + [Looks(PRESENCE_TTL, {gone}), Hides(PRESENCE_TTL, gone)]);
      var b := Exec(idleAfter, 0, shown + [Looks(PRESENCE_TTL, {}), Hides(PRESENCE_TTL, gone)]);
      a.board.lastUsed == PRESENCE_TTL - 1 && b.board.lastUsed == PRESENCE_TTL
  {
    var shown := [Shows(0, gone, gone), Shows(PRESENCE_TTL - 1, here, here)];
    TwoShown(idleAfter, gone, here);
    var s := Exec(idleAfter, 0, shown);
    assert here in HereOnes(s.board.viewers, PRESENCE_TTL);
    LastTwo(idleAfter, shown, Looks(PRESENCE_TTL, {gone}), Hides(PRESENCE_TTL, gone));
    LastTwo(idleAfter, shown, Looks(PRESENCE_TTL, {}), Hides(PRESENCE_TTL, gone));
  }

  lemma LastTwo(idleAfter: int, events: seq<Event>, e: Event, f: Event)
    ensures Exec(idleAfter, 0, events + [e, f]) == Step(idleAfter, Step(idleAfter, Exec(idleAfter, 0, events), e), f)
  {
    var all := events + [e, f];
    assert all[..|all| - 1] == events + [e];
    assert (events + [e])[..|events|] == events;
    assert Exec(idleAfter, 0, events + [e]) == Step(idleAfter, Exec(idleAfter, 0, events), e);
  }

  lemma TwoShown(idleAfter: int, gone: Viewer, here: Viewer)
    requires idleAfter > 0 && gone != here
    ensures var s := Exec(idleAfter, 0, [Shows(0, gone, gone), Shows(PRESENCE_TTL - 1, here, here)]);
      s.now == s.board.lastUsed == PRESENCE_TTL - 1 && s.board.viewers == map[gone := 0, here := PRESENCE_TTL - 1]
  {
    LastTwo(idleAfter, [], Shows(0, gone, gone), Shows(PRESENCE_TTL - 1, here, here));
    assert [] + [Shows(0, gone, gone), Shows(PRESENCE_TTL - 1, here, here)]
        == [Shows(0, gone, gone), Shows(PRESENCE_TTL - 1, here, here)];
    var none: Viewers := map[];
    assert HereOnes(none, 0) == none && |none| == 0;
    var one := Step(idleAfter, Exec(idleAfter, 0, []), Shows(0, gone, gone));
    assert one.board.viewers == map[gone := 0];
    assert HereOnes(one.board.viewers, PRESENCE_TTL - 1) == map[gone := 0] && |map[gone := 0]| == 1;
  }

  // What counts as use, and which tabs are held

  ghost predicate Uses(s: State, e: Event) {
    Enabled(s, e) && (e.Touches? || e.Shows? || e.Resets? || (e.Hides? && e.viewer in s.board.viewers))
  }

  lemma UseNext(idleAfter: int, s: State, e: Event)
    ensures Step(idleAfter, s, e).board.lastUsed == if Uses(s, e) then e.at else s.board.lastUsed
  {
  }

  /** The `i`th event was a use, and nothing after it was. */
  ghost predicate LastUse(idleAfter: int, now: int, events: seq<Event>, i: nat)
    requires i < |events|
  {
    && Uses(Exec(idleAfter, now, events[..i]), events[i])
    && forall j | i < j < |events| :: !Uses(Exec(idleAfter, now, events[..j]), events[j])
  }

  lemma LastUseNext(idleAfter: int, now: int, events: seq<Event>, i: nat)
    requires i < |events| - 1
    ensures var most, last := events[..|events| - 1], events[|events| - 1];
      LastUse(idleAfter, now, events, i) <==> LastUse(idleAfter, now, most, i) && !Uses(Exec(idleAfter, now, most), last)
  {
    hide Exec, Uses;
    var most := events[..|events| - 1];
    assert forall j | 0 <= j < |most| :: most[..j] == events[..j] && most[j] == events[j];
    assert events[..|most|] == most;
  }

  lemma LastUseNow(idleAfter: int, now: int, events: seq<Event>)
    requires events != [] && Uses(Exec(idleAfter, now, events[..|events| - 1]), events[|events| - 1])
    ensures LastUse(idleAfter, now, events, |events| - 1)
  {
  }

  ghost predicate Unused(idleAfter: int, now: int, events: seq<Event>) {
    forall i | 0 <= i < |events| :: !Uses(Exec(idleAfter, now, events[..i]), events[i])
  }

  lemma UnusedNext(idleAfter: int, now: int, events: seq<Event>)
    requires events != [] && Unused(idleAfter, now, events[..|events| - 1])
    requires !Uses(Exec(idleAfter, now, events[..|events| - 1]), events[|events| - 1])
    ensures Unused(idleAfter, now, events)
  {
    hide Exec, Uses;
    var most := events[..|events| - 1];
    assert forall j | 0 <= j < |most| :: most[..j] == events[..j] && most[j] == events[j];
  }

  /** Over every run the idle period counts from the last use, or from the start if there was none. */
  lemma {:induction false} LastUsedAt(idleAfter: int, now: int, events: seq<Event>)
    ensures var lastUsed := Exec(idleAfter, now, events).board.lastUsed;
      || (lastUsed == now && Unused(idleAfter, now, events))
      || exists i | 0 <= i < |events| :: LastUse(idleAfter, now, events, i) && lastUsed == events[i].at
  {
    hide Uses, Step, LastUse, Unused;
    if events == [] {
      NothingUsed(idleAfter, now);
    } else {
      var most, last := events[..|events| - 1], events[|events| - 1];
      var s := Exec(idleAfter, now, most);
      LastUsedAt(idleAfter, now, most);
      UseNext(idleAfter, s, last);
      if Uses(s, last) {
        LastUseNow(idleAfter, now, events);
      } else if Unused(idleAfter, now, most) && s.board.lastUsed == now {
        UnusedNext(idleAfter, now, events);
      } else {
        var i :| 0 <= i < |most| && LastUse(idleAfter, now, most, i) && s.board.lastUsed == most[i].at;
        LastUseNext(idleAfter, now, events, i);
        assert events[i].at == s.board.lastUsed;
      }
    }
  }

  lemma NothingUsed(idleAfter: int, now: int)
    ensures Unused(idleAfter, now, [])
  {
  }

  /** Nothing makes room: no report finds the table full of other tabs. */
  ghost predicate NeverFull(idleAfter: int, now: int, events: seq<Event>) {
    forall i | 0 <= i < |events| && events[i].Shows? ::
      !Full(Exec(idleAfter, now, events[..i]).board.viewers, events[i].viewer, events[i].at)
  }

  ghost predicate LetsGo(s: State, e: Event, v: Viewer) {
    Enabled(s, e) && (e.Resets? || (e.Hides? && e.viewer == v))
  }

  /** The `i`th event showed `v`, and nothing has hidden it or reset the table since. */
  ghost predicate Showing(idleAfter: int, now: int, events: seq<Event>, i: nat, v: Viewer)
    requires i < |events|
  {
    && events[i].Shows? && events[i].viewer == v && Enabled(Exec(idleAfter, now, events[..i]), events[i])
    && forall j | i < j < |events| :: !LetsGo(Exec(idleAfter, now, events[..j]), events[j], v)
  }

  ghost predicate HeldAt(s: State, v: Viewer, at: int) {
    v in HereOnes(s.board.viewers, at)
  }

  /** No tab was heard from later than now. */
  ghost predicate AllSeen(s: State) {
    forall v | v in s.board.viewers :: s.board.viewers[v] <= s.now
  }

  lemma HeldNext(idleAfter: int, s: State, e: Event, v: Viewer, at: int)
    requires Step(idleAfter, s, e).now <= at && (e.Shows? ==> !Full(s.board.viewers, e.viewer, e.at))
    requires AllSeen(s)
    ensures HeldAt(Step(idleAfter, s, e), v, at) <==>
              || (Enabled(s, e) && e.Shows? && e.viewer == v && Here(e.at, at))
              || (HeldAt(s, v, at) && !LetsGo(s, e, v))
  {
    if Enabled(s, e) {
      HereLater(s.board.viewers, e.at, at);
      match e
      case Looks(t, forgets) =>
        HereAfterLook(s.board.viewers, forgets, idleAfter, t);
        HereLater(Looked(s.board.viewers, forgets, idleAfter, t), t, at);
      case Touches(t, forgets) =>
        HereAfterLook(s.board.viewers, forgets, idleAfter, t);
        HereLater(Looked(s.board.viewers, forgets, idleAfter, t), t, at);
      case _ =>
    }
  }

  lemma ShowingNext(idleAfter: int, now: int, events: seq<Event>, i: nat, v: Viewer)
    requires i < |events| - 1
    ensures var most, last := events[..|events| - 1], events[|events| - 1];
      Showing(idleAfter, now, events, i, v)
      <==> Showing(idleAfter, now, most, i, v) && !LetsGo(Exec(idleAfter, now, most), last, v)
  {
    var most := events[..|events| - 1];
    assert forall j | 0 <= j < |most| :: most[..j] == events[..j] && most[j] == events[j];
    assert events[..|most|] == most;
  }

  ghost predicate ShownLately(idleAfter: int, now: int, events: seq<Event>, v: Viewer, at: int) {
    exists i | 0 <= i < |events| :: Showing(idleAfter, now, events, i, v) && Here(events[i].at, at)
  }

  lemma ShownNext(idleAfter: int, now: int, events: seq<Event>, v: Viewer, at: int)
    requires events != []
    ensures var most, last := events[..|events| - 1], events[|events| - 1];
      var s := Exec(idleAfter, now, most);
      ShownLately(idleAfter, now, events, v, at) <==>
        || (Enabled(s, last) && last.Shows? && last.viewer == v && Here(last.at, at))
        || (ShownLately(idleAfter, now, most, v, at) && !LetsGo(s, last, v))
  {
    hide Exec, Enabled, LetsGo;
    var most, last := events[..|events| - 1], events[|events| - 1];
    assert events[..|most|] == most;
    if i :| 0 <= i < |events| && Showing(idleAfter, now, events, i, v) && Here(events[i].at, at) {
      if i < |most| { ShowingNext(idleAfter, now, events, i, v); }
    }
    if i :| 0 <= i < |most| && Showing(idleAfter, now, most, i, v) && Here(most[i].at, at) {
      ShowingNext(idleAfter, now, events, i, v);
    }
    assert Showing(idleAfter, now, events, |most|, v) <==> Enabled(Exec(idleAfter, now, most), last) && last.Shows? && last.viewer == v;
  }

  lemma NeverFullBefore(idleAfter: int, now: int, events: seq<Event>)
    requires events != [] && NeverFull(idleAfter, now, events)
    ensures var most, last := events[..|events| - 1], events[|events| - 1];
      && NeverFull(idleAfter, now, most)
      && (last.Shows? ==> !Full(Exec(idleAfter, now, most).board.viewers, last.viewer, last.at))
  {
    var most := events[..|events| - 1];
    assert forall j | 0 <= j < |most| :: most[..j] == events[..j] && most[j] == events[j];
    assert events[..|most|] == most;
  }

  /**
   * Over every run, as long as no tab had to make room: a tab holds the dashboard exactly when it was
   * shown within the time a report counts, and neither hidden nor reset since.
   */
  lemma {:induction false} HeldIff(idleAfter: int, now: int, events: seq<Event>, v: Viewer, at: int)
    requires NeverFull(idleAfter, now, events) && Exec(idleAfter, now, events).now <= at
    ensures HeldAt(Exec(idleAfter, now, events), v, at)
      <==> exists i | 0 <= i < |events| :: Showing(idleAfter, now, events, i, v) && Here(events[i].at, at)
  {
    hide Step, HeldAt, LetsGo, Enabled, Showing, NeverFull, AllSeen;
    if events == [] {
      NobodyHeld(now, v, at);
    } else {
      var most, last := events[..|events| - 1], events[|events| - 1];
      var s := Exec(idleAfter, now, most);
      NeverFullBefore(idleAfter, now, events);
      TimeGoesOn(idleAfter, s, last);
      HeldIff(idleAfter, now, most, v, at);
      SeenByNow(idleAfter, now, most);
      HeldNext(idleAfter, s, last, v, at);
      ShownNext(idleAfter, now, events, v, at);
    }
  }

  lemma {:induction false} SeenByNow(idleAfter: int, now: int, events: seq<Event>)
    ensures AllSeen(Exec(idleAfter, now, events))
  {
    if events != [] {
      SeenByNow(idleAfter, now, events[..|events| - 1]);
      StepSeen(idleAfter, Exec(idleAfter, now, events[..|events| - 1]), events[|events| - 1]);
    }
  }

  lemma StepSeen(idleAfter: int, s: State, e: Event)
    requires AllSeen(s)
    ensures AllSeen(Step(idleAfter, s, e))
  {
  }

  lemma NobodyHeld(now: int, v: Viewer, at: int)
    ensures !HeldAt(State(Board(map[], now, false), now), v, at)
  {
  }

  lemma TimeGoesOn(idleAfter: int, s: State, e: Event)
    ensures s.now <= Step(idleAfter, s, e).now
  {
  }

  // Making room

  /** A look that finds the dashboard idle has gone over every tab, and forgotten them all. */
  lemma IdleForgetsAll(idleAfter: int, s: State, e: Event)
    requires Enabled(s, e) && (e.Looks? || e.Touches?) && Idle(s.board.viewers, s.board.lastUsed, idleAfter, e.at)
    ensures Step(idleAfter, s, e).board.viewers == map[]
  {
    IdleByTheHere(s.board.viewers, s.board.lastUsed, idleAfter, e.at);
  }

  /** The tabs heard from lately. */
  function HeardLately(viewers: Viewers, now: int): set<Viewer> {
    set v | v in viewers && now - viewers[v] < PRESENCE_TTL
  }

  lemma HereHeard(viewers: Viewers, now: int)
    ensures HereOnes(viewers, now).Keys == HeardLately(viewers, now)
    ensures |HereOnes(viewers, now)| == |HeardLately(viewers, now)|
    ensures forall v | v in HereOnes(viewers, now) :: v in viewers && HereOnes(viewers, now)[v] == viewers[v]
  {
    assert |HereOnes(viewers, now)| == |HereOnes(viewers, now).Keys|;
  }

  /** A tab that is shown is held, with every other one heard from lately for which there is room. */
  lemma ShownIsHeld(idleAfter: int, s: State, e: Event)
    requires Enabled(s, e) && e.Shows?
    ensures var before, after := HeardLately(s.board.viewers, e.at), Step(idleAfter, s, e).board.viewers;
      && e.viewer in after && after[e.viewer] == e.at
      && (forall v | v in after && v != e.viewer :: v in before && after[v] == s.board.viewers[v])
      && (e.viewer in before || |before| < MAX_VIEWERS ==> after.Keys == before + {e.viewer})
  {
    hide HereOnes, HeardLately, Idle;
    HereHeard(s.board.viewers, e.at);
  }

  /** Where there is none, the one heard from longest ago makes it, and no other goes. */
  lemma MakesRoom(idleAfter: int, s: State, e: Event)
    requires Enabled(s, e) && e.Shows?
    requires e.viewer !in HeardLately(s.board.viewers, e.at) && |HeardLately(s.board.viewers, e.at)| >= MAX_VIEWERS
    ensures var before, after := HeardLately(s.board.viewers, e.at), Step(idleAfter, s, e).board.viewers;
      && e.drop in before && after.Keys == before - {e.drop} + {e.viewer}
      && forall v | v in before :: s.board.viewers[e.drop] <= s.board.viewers[v]
  {
    hide HereOnes, HeardLately, Idle;
    HereHeard(s.board.viewers, e.at);
    var here := HereOnes(s.board.viewers, e.at);
    assert (here - {e.drop}).Keys == here.Keys - {e.drop};
    assert forall v | v in HeardLately(s.board.viewers, e.at) :: v in here;
  }

  /** The table never outgrows its bound. */
  lemma {:induction false} TableBounded(idleAfter: int, now: int, events: seq<Event>)
    ensures |Exec(idleAfter, now, events).board.viewers| <= MAX_VIEWERS
  {
    if events != [] {
      TableBounded(idleAfter, now, events[..|events| - 1]);
      StepBounded(idleAfter, Exec(idleAfter, now, events[..|events| - 1]), events[|events| - 1]);
    }
  }

  lemma NoMore(a: Viewers, b: Viewers)
    requires a.Keys <= b.Keys
    ensures |a| <= |b|
  {
    assert |a| == |a.Keys| && |b| == |b.Keys|;
    assert |b.Keys| == |a.Keys| + |b.Keys - a.Keys|;
  }

  lemma StepBounded(idleAfter: int, s: State, e: Event)
    requires |s.board.viewers| <= MAX_VIEWERS
    ensures |Step(idleAfter, s, e).board.viewers| <= MAX_VIEWERS
  {
    if Enabled(s, e) {
      match e
      case Shows(at, viewer, drop) =>
        var here := HereOnes(s.board.viewers, at);
        NoMore(here, s.board.viewers);
        if Full(s.board.viewers, viewer, at) {
          Fewer(here, drop);
          OneMore(here - {drop}, viewer, at);
        } else {
          assert viewer in here || |here| < MAX_VIEWERS;
          OneMore(here, viewer, at);
        }
      case _ => NoMore(Step(idleAfter, s, e).board.viewers, s.board.viewers);
    }
  }
}
