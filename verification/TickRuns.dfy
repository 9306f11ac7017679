/** A box ticked here, over every run: no fetch begun before the tick undoes it. */
module TickRuns {
  import opened Prelude
  import opened Seqs
  import opened Rows
  import opened Merge
  import opened Refresh
  import opened RefreshRuns
  import opened Taken
  import opened BoxRuns
  import opened Polls

  /** Every listed row of `id` shows `ticked`, and the override says so under number `after`. */
  ghost predicate Stands(b: Board, id: Id, ticked: bool, after: nat) {
    && id in b.overrides && b.overrides[id] == Override(ticked, after)
    && forall r | r in b.snap.prs && r.id == id :: r.box == ticked
  }

  // ---- What was under way when the tick was made, by event positions ----

  function StateAt(events: seq<Event>, i: nat): State
    requires i <= |events|
  {
    Exec(events[..i])
  }

  /** The fetch that lands at `j` was under way at `t` and has been since. */
  ghost predicate BegunBefore(events: seq<Event>, t: nat, j: nat)
    requires t <= j < |events|
  {
    match events[j]
    case RepoLands(k, _, _, _, _) => forall i | t <= i <= j :: k in StateAt(events, i).reading
    case PollLands(n, _, _, _, _) => n in StateAt(events, t).polling
    case FullLands => forall i | t <= i <= j :: !StateAt(events, i).full.Idle?
    case _ => true
  }

  /** A full refresh that lands the row of `id` as it carried it over, not as it read it. */
  predicate LandsCarried(s: State, e: Event, id: Id) {
    e.FullLands? && s.full.Ready? && !Guards(s, id.home) && !(id.home.forge in s.full.reached && id in s.full.read)
  }

  /** Whether a merge is of another repository than `k`. */
  predicate Elsewhere(e: Event, k: RepoKey) {
    (e.RepoLands? && e.repo != k) || (e.PollLands? && k !in e.order)
  }

  /**
   * The step at `j` is no later tick of `id`, no landing of a later fetch on its repository, and brings
   * no row carried over.
   */
  ghost predicate Harmless(events: seq<Event>, t: nat, j: nat, id: Id)
    requires t <= j < |events|
  {
    && !(events[j].Ticks? && events[j].id == id)
    && (BegunBefore(events, t, j) || Elsewhere(events[j], id.home))
    && !LandsCarried(StateAt(events, j), events[j], id)
  }

  // ---- The steps ----

  /** The merge of a fetch numbered no higher than the tick keeps it. */
  lemma ReplacedStands(b: Board, after: Board, n: nat, share: Share, oldest: int, id: Id, ticked: bool, at: nat)
    requires Replaces(b, after, n, share, oldest) && Fits(share) && share.repo == id.home
    requires Stands(b, id, ticked, at) && n <= at
    ensures Stands(after, id, ticked, at)
  {
    var k, prs := share.repo, SharePrs(b.snap, share);
    var held := Held(b.settled, Listed(prs), Some(k), oldest);
    var f := Boxed(b.overrides, n, Repo(k), ReadOf(share.source));
    var rows := Unsettled(prs, held);
    assert AgreeOn(after.overrides,
                   Unretired(b.overrides, n, Listed(At(after.snap.prs, k)), Repo(k), ReadOf(share.source)), k);
    FilterHas(prs, NotIn(held.Keys));
    forall r | r in after.snap.prs && r.id == id ensures r.box == ticked {
      InAt(after.snap.prs, r);
      SameListed(At(after.snap.prs, k), NewRows(b, k, n, prs, ReadOf(share.source), oldest));
      var i :| 0 <= i < |rows| && f(rows[i]) == r;
      assert rows[i] in prs;
      if !Reads(ReadOf(share.source), id) {
        UnreadIsOld(b.snap, share, rows[i]);
      }
    }
  }

  lemma AlikeStands(b: Board, after: Board, id: Id, ticked: bool, at: nat)
    requires Alike(after, b, id.home) && Stands(b, id, ticked, at)
    ensures Stands(after, id, ticked, at)
  {
    assert AgreeOn(after.overrides, b.overrides, id.home);
    forall r | r in after.snap.prs && r.id == id ensures r.box == ticked { AlikeHas(after, b, r, Prs); }
  }

  lemma MergeStands(b: Board, n: nat, shares: seq<Share>, oldest: int, id: Id, ticked: bool, at: nat)
    requires AllFit(shares) && OneEach(shares) && Stands(b, id, ticked, at)
    requires n <= at || !Names(shares, id.home)
    ensures Stands(MergedFrom(b, n, shares, oldest), id, ticked, at)
  {
    hide Stands;
    var after := MergedFrom(b, n, shares, oldest);
    MergedFromMerges(b, n, shares, oldest);
    if !Names(shares, id.home) {
      OthersUntouched(b, n, shares, oldest, id.home);
      AlikeStands(b, after, id, ticked, at);
    } else if Alike(after, b, id.home) {
      AlikeStands(b, after, id, ticked, at);
    } else {
      var i :| 0 <= i < |shares| && ReplacedBy(b, after, n, shares[i], oldest, id.home);
      ReplacedStands(b, after, n, shares[i], oldest, id, ticked, at);
    }
  }

  lemma LandingStands(s: State, id: Id, ticked: bool, at: nat)
    requires s.full.Ready? && s.full.n <= at && !LandsCarried(s, FullLands, id)
    requires Stands(s.board, id, ticked, at)
    ensures Stands(OnFullLands(s).board, id, ticked, at)
  {
    var b, full := s.board, s.full;
    var newer, f := Newer(b.scoped, full.n), Boxed(b.overrides, full.n, Forges(full.reached), Only(full.read));
    var kept := KeepNewer(full.snap, b.snap, newer).prs;
    forall r | r in OnFullLands(s).board.snap.prs && r.id == id ensures r.box == ticked {
      var i :| 0 <= i < |kept| && f(kept[i]) == r;
      KeptHas(full.snap, b.snap, newer, kept[i]);
    }
  }

  lemma RepoLandsStands(s: State, e: Event, id: Id, ticked: bool, at: nat)
    requires e.RepoLands? && Stands(s.board, id, ticked, at)
    requires e.repo in s.reading ==> s.reading[e.repo] <= at || e.repo != id.home
    ensures Stands(OnRepoLands(s, e.repo, e.prs, e.issues, e.whole, e.oldest).board, id, ticked, at)
  {
    hide Stands, MergedFrom;
    var k := e.repo;
    if k in s.reading && AllOf(e.prs, k) && AllOf(e.issues, k) {
      MergeStands(s.board, s.reading[k], [RepoShare(k, s.reading[k], e.prs, e.issues, e.whole)], e.oldest, id, ticked, at);
    }
  }

  lemma PollLandsStands(s: State, e: Event, id: Id, ticked: bool, at: nat)
    requires e.PollLands? && Stands(s.board, id, ticked, at)
    requires e.n in s.polling ==> e.n <= at || id.home !in e.order
    ensures Stands(OnPollLands(s, e.n, e.pulls, e.closed, e.order, e.oldest).board, id, ticked, at)
  {
    hide Stands, MergedFrom;
    if e.n in s.polling && IsPoll(e.pulls, e.closed, e.order) {
      MergeStands(s.board, e.n, PollShares(e.n, e.pulls, e.closed, e.order), e.oldest, id, ticked, at);
    }
  }

  lemma OtherEventStands(s: State, e: Event, id: Id, ticked: bool, at: nat)
    requires !e.RepoLands? && !e.PollLands? && !e.FullLands? && !(e.Ticks? && e.id == id)
    requires Stands(s.board, id, ticked, at)
    ensures Stands(Step(s, e).board, id, ticked, at)
  {
    hide OnRepoLands, OnPollLands, OnFullLands;
    if e.Leaves? {
      FilterHas(s.board.snap.prs, NotIn({e.id}));
    }
  }

  lemma StepStands(s: State, e: Event, id: Id, ticked: bool, at: nat)
    requires Stands(s.board, id, ticked, at)
    requires !(e.Ticks? && e.id == id) && !LandsCarried(s, e, id)
    requires e.RepoLands? && e.repo in s.reading ==> s.reading[e.repo] <= at || e.repo != id.home
    requires e.PollLands? && e.n in s.polling ==> e.n <= at || id.home !in e.order
    requires e.FullLands? && s.full.Ready? ==> s.full.n <= at
    ensures Stands(Step(s, e).board, id, ticked, at)
  {
    hide Stands, OnRepoLands, OnPollLands, OnFullAssembles;
    match e
    case RepoLands(_, _, _, _, _) => RepoLandsStands(s, e, id, ticked, at);
    case PollLands(_, _, _, _, _) => PollLandsStands(s, e, id, ticked, at);
    case FullLands =>
      if s.full.Ready? { LandingStands(s, id, ticked, at); }
    case _ => OtherEventStands(s, e, id, ticked, at);
  }

  // ---- The numbers of what was under way ----

  /** No fetch under way is numbered above the counter. */
  lemma NumbersUpto(s: State)
    requires Reachable(s)
    ensures forall k | k in s.reading :: s.reading[k] <= s.fetches
    ensures forall n | n in s.polling :: n <= s.fetches
    ensures !s.full.Idle? ==> s.full.n <= s.fetches
  {
    ReachableInv(s);
  }

  lemma NextState(events: seq<Event>, i: nat)
    requires i < |events|
    ensures StateAt(events, i + 1) == Step(StateAt(events, i), events[i])
  {
    assert events[..i + 1][..i] == events[..i];
  }

  lemma SameReading(s: State, e: Event, k: RepoKey)
    requires k in s.reading && k in Step(s, e).reading
    ensures Step(s, e).reading[k] == s.reading[k]
  {
  }

  lemma SameFull(s: State, e: Event)
    requires !s.full.Idle? && !Step(s, e).full.Idle?
    ensures Step(s, e).full.n == s.full.n
  {
  }

  lemma {:induction false} ReadingSince(events: seq<Event>, t: nat, j: nat, k: RepoKey)
    requires t <= j <= |events| && forall i | t <= i <= j :: k in StateAt(events, i).reading
    ensures StateAt(events, j).reading[k] == StateAt(events, t).reading[k]
  {
    hide Step;
    if t < j {
      ReadingSince(events, t, j - 1, k);
      NextState(events, j - 1);
      SameReading(StateAt(events, j - 1), events[j - 1], k);
    }
  }

  lemma {:induction false} FullSince(events: seq<Event>, t: nat, j: nat)
    requires t <= j <= |events| && forall i | t <= i <= j :: !StateAt(events, i).full.Idle?
    ensures StateAt(events, j).full.n == StateAt(events, t).full.n
  {
    hide Step;
    if t < j {
      FullSince(events, t, j - 1);
      NextState(events, j - 1);
      SameFull(StateAt(events, j - 1), events[j - 1]);
    }
  }

  /** What lands at `j` was numbered by `t`. */
  lemma NumberedByThen(events: seq<Event>, t: nat, j: nat)
    requires t <= j < |events| && BegunBefore(events, t, j)
    ensures var s, e, at := StateAt(events, j), events[j], StateAt(events, t).fetches;
      && (e.RepoLands? && e.repo in s.reading ==> s.reading[e.repo] <= at)
      && (e.PollLands? ==> e.n <= at)
      && (e.FullLands? ==> s.full.n <= at)
  {
    hide Step;
    assert Reachable(StateAt(events, t));
    NumbersUpto(StateAt(events, t));
    match events[j]
    case RepoLands(k, _, _, _, _) => ReadingSince(events, t, j, k);
    case FullLands => FullSince(events, t, j);
    case _ =>
  }

  // ---- When a fetch of a repository is under way ----

  predicate EndsFetch(e: Event, k: RepoKey) {
    (e.RepoFails? && e.repo == k) || (e.RepoLands? && e.repo == k && AllOf(e.prs, k) && AllOf(e.issues, k))
  }

  /** The fetch begun at `j` has neither failed nor landed. */
  ghost predicate StillOut(events: seq<Event>, j: nat, k: RepoKey)
    requires j < |events|
  {
    && events[j] == RepoBegins(k) && k !in StateAt(events, j).reading
    && forall i | j < i < |events| :: !EndsFetch(events[i], k)
  }

  lemma ReadingNext(s: State, e: Event, k: RepoKey)
    ensures k in Step(s, e).reading <==> e == RepoBegins(k) || (k in s.reading && !EndsFetch(e, k))
    ensures k in s.reading && k in Step(s, e).reading ==> Step(s, e).reading[k] == s.reading[k]
    ensures k !in s.reading && e == RepoBegins(k) ==> Step(s, e).reading[k] == s.fetches + 1
  {
    hide MergedFrom, Assembled, Landed;
  }

  lemma StillOutNext(events: seq<Event>, j: nat, k: RepoKey)
    requires j < |events| - 1
    ensures StillOut(events, j, k) <==> StillOut(events[..|events| - 1], j, k) && !EndsFetch(events[|events| - 1], k)
  {
    hide Exec, EndsFetch;
    var most := events[..|events| - 1];
    assert most[..j] == events[..j];
    assert forall i | j < i < |most| :: most[i] == events[i];
  }

  /**
   * A fetch of the repository is under way exactly from where one begins that finds none, to where it
   * fails or lands; and it is numbered just above all begun before it.
   */
  lemma {:induction false} ReadingIff(events: seq<Event>, k: RepoKey)
    ensures k in Exec(events).reading <==> exists j: nat | j < |events| :: StillOut(events, j, k)
    ensures forall j: nat | j < |events| && StillOut(events, j, k) ::
              k in Exec(events).reading && Exec(events).reading[k] == StateAt(events, j).fetches + 1
  {
    hide Step, StillOut;
    if events != [] {
      var most, last := events[..|events| - 1], events[|events| - 1];
      ReadingIff(most, k);
      ReadingNext(Exec(most), last, k);
      JustBegun(events, k);
      forall j: nat | j < |most|
        ensures StillOut(events, j, k) <==> StillOut(most, j, k) && !EndsFetch(last, k)
        ensures StateAt(events, j) == StateAt(most, j)
      {
        StillOutNext(events, j, k);
        assert most[..j] == events[..j];
      }
    }
  }

  predicate EndsPoll(e: Event, n: nat) {
    e.PollLands? && e.n == n && IsPoll(e.pulls, e.closed, e.order)
  }

  /** The poll begun at `j` under `n` has not landed. */
  ghost predicate PollOut(events: seq<Event>, j: nat, n: nat)
    requires j < |events|
  {
    && events[j].PollBegins? && n == StateAt(events, j).fetches + 1
    && forall i | j < i < |events| :: !EndsPoll(events[i], n)
  }

  lemma PollingNext(s: State, e: Event, n: nat)
    ensures n in Step(s, e).polling <==> (e.PollBegins? && n == s.fetches + 1) || (n in s.polling && !EndsPoll(e, n))
  {
    hide MergedFrom, Assembled, Landed;
  }

  lemma PollOutNext(events: seq<Event>, j: nat, n: nat)
    requires j < |events| - 1
    ensures PollOut(events, j, n) <==> PollOut(events[..|events| - 1], j, n) && !EndsPoll(events[|events| - 1], n)
  {
    hide Exec, EndsPoll;
    var most := events[..|events| - 1];
    assert most[..j] == events[..j];
    assert forall i | j < i < |most| :: most[i] == events[i];
  }

  /** A poll is under way exactly from where it begins to where its answer lands, which it does once. */
  lemma {:induction false} PollingIff(events: seq<Event>, n: nat)
    ensures n in Exec(events).polling <==> exists j: nat | j < |events| :: PollOut(events, j, n)
  {
    hide Step, PollOut;
    if events != [] {
      var most, last := events[..|events| - 1], events[|events| - 1];
      PollingIff(most, n);
      PollingNext(Exec(most), last, n);
      JustPolled(events, n);
      forall j: nat | j < |most|
        ensures PollOut(events, j, n) <==> PollOut(most, j, n) && !EndsPoll(last, n)
      {
        PollOutNext(events, j, n);
      }
    }
  }

  lemma JustPolled(events: seq<Event>, n: nat)
    requires events != []
    ensures PollOut(events, |events| - 1, n)
       <==> events[|events| - 1].PollBegins? && n == Exec(events[..|events| - 1]).fetches + 1
  {
  }

  lemma JustBegun(events: seq<Event>, k: RepoKey)
    requires events != []
    ensures var s, last := Exec(events[..|events| - 1]), events[|events| - 1];
      StillOut(events, |events| - 1, k) <==> last == RepoBegins(k) && k !in s.reading
    ensures StateAt(events, |events| - 1) == Exec(events[..|events| - 1])
  {
  }

  // ---- The theorem ----

  lemma TickStands(b: Board, id: Id, ticked: bool, fetches: nat)
    requires id in Listed(b.snap.prs) && Count(b.snap.prs, id) <= 1
    ensures Stands(Ticked(b, id, ticked, fetches), id, ticked, fetches)
  {
    var prs, i := b.snap.prs, IndexOf(b.snap.prs, id);
    var q :| q in prs && q.id == id;
    var m :| 0 <= m < |prs| && prs[m] == q;
    assert i < |prs|;
    var after := Ticked(b, id, ticked, fetches).snap.prs;
    forall r | r in after && r.id == id ensures r.box == ticked {
      var j :| 0 <= j < |after| && after[j] == r;
      if j != i {
        CountTwo(prs, if i < j then i else j, if i < j then j else i);
      }
    }
  }

  /**
   * From a tick on, whatever happens: until the box is set again, or a fetch begun after the tick lands,
   * every landing leaves the override standing and the listed pull request with the box as it was set,
   * but for a full refresh that lands a row it carried over.
   */
  lemma {:induction false} NoEarlierFetchUndoesATick(events: seq<Event>, t: nat, m: nat, id: Id, ticked: bool)
    requires t < m <= |events| && events[t] == Ticks(id, ticked)
    requires id in Listed(StateAt(events, t).board.snap.prs) && Count(StateAt(events, t).board.snap.prs, id) <= 1
    requires forall j | t < j < m :: Harmless(events, t, j, id)
    ensures Stands(StateAt(events, m).board, id, ticked, StateAt(events, t).fetches)
  {
    hide Step, Stands;
    NextState(events, m - 1);
    var s := StateAt(events, m - 1);
    if m == t + 1 {
      TicksStep(s, id, ticked);
      TickStands(s.board, id, ticked, s.fetches);
    } else {
      NoEarlierFetchUndoesATick(events, t, m - 1, id, ticked);
      assert Harmless(events, t, m - 1, id);
      if BegunBefore(events, t, m - 1) { NumberedByThen(events, t, m - 1); }
      StepStands(s, events[m - 1], id, ticked, StateAt(events, t).fetches);
    }
  }

  lemma TicksStep(s: State, id: Id, ticked: bool)
    ensures Step(s, Ticks(id, ticked)).board == Ticked(s.board, id, ticked, s.fetches)
  {
  }

  // ---- Once a later fetch has ended the override ----

  /** With no later tick, an override that stands is the one the tick set. */
  lemma {:induction false} OverrideSince(events: seq<Event>, t: nat, m: nat, id: Id, ticked: bool)
    requires t < m <= |events| && events[t] == Ticks(id, ticked) && id in Listed(StateAt(events, t).board.snap.prs)
    requires forall j | t < j < m :: !(events[j].Ticks? && events[j].id == id)
    ensures var b := StateAt(events, m).board;
      id in b.overrides ==> b.overrides[id] == Override(ticked, StateAt(events, t).fetches)
  {
    hide Step;
    NextState(events, m - 1);
    var s := StateAt(events, m - 1);
    if m == t + 1 {
      TicksStep(s, id, ticked);
      var q :| q in s.board.snap.prs && q.id == id;
    } else {
      OverrideSince(events, t, m - 1, id, ticked);
      StepKeepsMarks(s, events[m - 1]);
    }
  }

  /**
   * A scoped fetch that was under way at the tick and lands later shows the box as it was set exactly
   * while the override stands; once a later fetch has ended that, it shows what it read itself.
   */
  lemma AnEarlierFetchShows(events: seq<Event>, t: nat, j: nat, id: Id, ticked: bool, r: Row)
    requires t < j < |events| && events[t] == Ticks(id, ticked) && id in Listed(StateAt(events, t).board.snap.prs)
    requires forall i | t < i < j :: !(events[i].Ticks? && events[i].id == id)
    requires events[j].RepoLands? && events[j].repo == id.home && BegunBefore(events, t, j)
    requires AllOf(events[j].prs, id.home) && AllOf(events[j].issues, id.home)
    requires r in StateAt(events, j + 1).board.snap.prs && r.id == id
    ensures if id in StateAt(events, j).board.overrides then r.box == ticked
            else exists q | q in events[j].prs && q.id == id :: r.box == q.box
  {
    var s, e := StateAt(events, j), events[j];
    NumberedByThen(events, t, j);
    OverrideSince(events, t, j, id, ticked);
    NextState(events, j);
    LandedShows(s, e, id, r);
  }

  lemma LandedShows(s: State, e: Event, id: Id, r: Row)
    requires e.RepoLands? && e.repo == id.home && id.home in s.reading && AllOf(e.prs, id.home) && AllOf(e.issues, id.home)
    requires r in Step(s, e).board.snap.prs && r.id == id
    ensures exists q | q in e.prs && q.id == id :: r.box == BoxAfter(s.board, s.reading[id.home], q)
  {
    hide MergedFrom, StaysFetched, Boxed, Held;
    var n := s.reading[id.home];
    var shares := [RepoShare(id.home, n, e.prs, e.issues, e.whole)];
    var prs := Map(e.prs, Stamp(n));
    AFetchLands(s.board, n, shares, e.oldest, 0);
    MappedHas(prs, StaysFetched(s.board, e.oldest), AfterFetch(s.board, n), At(Step(s, e).board.snap.prs, id.home));
    HasAt(Step(s, e).board.snap.prs, r);
    var q :| q in prs && StaysFetched(s.board, e.oldest)(q) && AfterFetch(s.board, n)(q) == r;
    var i :| 0 <= i < |prs| && prs[i] == q;
    assert e.prs[i] in e.prs && e.prs[i].id == id && e.prs[i].box == q.box;
    assert BoxAfter(s.board, n, e.prs[i]) == BoxAfter(s.board, n, q);
  }
}
