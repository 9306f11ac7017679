/** Three reachable states in which a landing full refresh undoes newer work. */
module Undone {
  import opened Prelude
  import opened Seqs
  import opened Rows
  import opened Merge
  import opened Refresh
  import opened RefreshRuns
  import opened Taken
  import opened BoxRuns
  import opened Polls

  const NOTHING := Board(EMPTY, map[], map[], map[])

  /** The board once the first fetch has read one pull request. */
  function Shown(pull: Row): Board {
    Board(Snapshot([pull], [], []), map[pull.id.home := 1], map[], map[])
  }

  /** The one source is held back on its budget. */
  function OnHold(pull: Row): seq<Answer> {
    [HeldBack(pull.id.home.forge, true)]
  }

  /** A refresh that carried `snap` over and is ready to land. */
  function Carrying(pull: Row, snap: Snapshot): Full {
    Ready(2, snap, {pull.id.home.forge}, {}, OnHold(pull), {})
  }

  lemma OnlyOne(rows: seq<Row>, r: Row)
    requires Same(rows, [r])
    ensures rows == [r]
  {
    assert |rows| == |multiset(rows)|;
    assert rows[0] in multiset(rows);
  }

  // One scoped fetch

  function Fetching(pull: Row): State {
    State(NOTHING, 1, {}, Idle, map[pull.id.home := 1], {}, {})
  }

  lemma FetchingReachable(pull: Row)
    ensures Reachable(Fetching(pull))
  {
    assert Exec([]) == START;
    StepReachable(START, RepoBegins(pull.id.home));
  }

  lemma FirstRows(pull: Row)
    requires pull.stamp == 1
    ensures MergedRepo(NOTHING, pull.id.home, 1, [pull], [], All, 0) == Shown(pull)
  {
    var k, none, o := pull.id.home, NOTHING.settled, NOTHING.overrides;
    var held := Held(none, Listed([pull]), Some(k), 0);
    assert held == map[];
    FilterAll([pull], NotIn(held.Keys));
    var rows := Filter(NOTHING.snap.prs, NotOf(k)) + Unsettled([pull], held);
    assert rows == [pull];
    assert Map(rows, Boxed(o, 1, Repo(k), All)) == [pull];
    OnlyOne(SortByRecency([pull]), pull);
    assert Unretired(o, 1, Listed(rows), Repo(k), All) == map[];
  }

  lemma FirstMerge(pull: Row)
    requires pull.stamp == 1
    ensures MergedFrom(NOTHING, 1, [RepoShare(pull.id.home, 1, [pull], [], true)], 0) == Shown(pull)
  {
    var share := RepoShare(pull.id.home, 1, [pull], [], true);
    assert Map([pull], Stamp(1)) == [pull] && Map([], Stamp(1)) == [];
    FirstRows(pull);
    assert [share][..0] == [];
    assert MergedShares(NOTHING, 1, [share], 0) == MergedRepo(NOTHING, pull.id.home, 1, [pull], [], All, 0);
  }

  /** The scoped fetch lands, whatever a full refresh is doing. */
  lemma FetchLands(pull: Row, s: State)
    requires pull.stamp == 1 && s.board == NOTHING && s.reading == map[pull.id.home := 1]
    ensures Step(s, RepoLands(pull.id.home, [pull], [], true, 0)) == s.(board := Shown(pull), reading := map[])
  {
    FirstMerge(pull);
    assert AllOf([pull], pull.id.home) && AllOf([], pull.id.home);
    assert s.reading - {pull.id.home} == map[];
  }

  // One full refresh that only carries over

  lemma RefreshLooks(pull: Row, s: State)
    requires s.full.Idle? && s.fetches == 1 && Reachable(s)
    ensures Reachable(s.(fetches := 2, full := Looked(2, s.board.snap)))
  {
    StepReachable(s, FullBegins);
    StepReachable(s.(fetches := 2, full := Started(2)), FullLooks);
  }

  lemma CarriesNothing(pull: Row, n: nat)
    ensures Assembled(OnHold(pull), n, Earlier(EMPTY, EMPTY), {}, map[], 0) == (EMPTY, map[])
  {
    var answers, earlier := OnHold(pull), Earlier(EMPTY, EMPTY);
    assert answers[..|answers| - 1] == [];
    forall p ensures AllRows(answers, p, n, earlier, {}) == [] {
      assert AllRows([], p, n, earlier, {}) == [] && RowsFrom(answers[0], p, n, earlier, Good([], {})) == [];
    }
    assert AllRepos(answers, n, earlier, {}) == [];
    var none: map<Id, int> := map[];
    assert Held(none, {}, None, 0) == none;
  }

  lemma GathersPull(pull: Row)
    ensures Gathered(OnHold(pull), 2, Earlier(Shown(pull).snap, Shown(pull).snap), {}) == Shown(pull).snap
  {
    var answers, earlier := OnHold(pull), Earlier(Shown(pull).snap, Shown(pull).snap);
    assert answers[..|answers| - 1] == [];
    FilterAll([pull], OfForge(pull.id.home.forge));
    assert AllRows(answers, Prs, 2, earlier, {}) == [pull] && AllRows(answers, Issues, 2, earlier, {}) == [];
    assert AllRepos(answers, 2, earlier, {}) == [];
  }

  lemma CarriesPull(pull: Row)
    ensures Assembled(OnHold(pull), 2, Earlier(Shown(pull).snap, Shown(pull).snap), {}, map[], 0) == (Shown(pull).snap, map[])
  {
    GathersPull(pull);
    var none: map<Id, int> := map[];
    assert Held(none, Listed([pull]), None, 0) == none;
    FilterAll([pull], NotIn(none.Keys));
    OnlyOne(SortByRecency([pull]), pull);
  }

  lemma NobodyAsked(pull: Row)
    ensures Reached(OnHold(pull)) == {pull.id.home.forge} && RowsRead(OnHold(pull)) == {}
  {
    assert OnHold(pull)[..0] == [];
  }

  // ---- A scoped merge undone ----

  /** A scoped fetch that began before the refresh landed after the refresh had carried its rows over. */
  function MergedLate(pull: Row): State {
    State(Shown(pull), 2, {}, Carrying(pull, EMPTY), map[], {}, {})
  }

  lemma MergedLateReachable(pull: Row)
    requires pull.stamp == 1
    ensures Reachable(MergedLate(pull))
  {
    var s := State(NOTHING, 2, {}, Looked(2, EMPTY), map[pull.id.home := 1], {}, {});
    FetchingReachable(pull);
    RefreshLooks(pull, Fetching(pull));
    StepReachable(s, FullAssembles(OnHold(pull), 0));
    CarriesNothing(pull, 2);
    NobodyAsked(pull);
    FetchLands(pull, s.(full := Carrying(pull, EMPTY)));
    StepReachable(s.(full := Carrying(pull, EMPTY)), RepoLands(pull.id.home, [pull], [], true, 0));
  }

  /** Landing the refresh then takes the merged pull request off the board again. */
  lemma ALateMergeIsUndone(pull: Row)
    requires pull.stamp == 1
    ensures Reachable(MergedLate(pull))
    ensures MergedLate(pull).board.snap.prs == [pull] && OnFullLands(MergedLate(pull)).board.snap.prs == []
  {
    MergedLateReachable(pull);
    assert Newer(Shown(pull).scoped, 2) == {};
  }

  /** The same refresh as the only fetch there has been. */
  function FirstRefresh(full: Full): State {
    State(NOTHING, 1, {}, full, map[], {}, {})
  }

  lemma FirstBegins()
    ensures Next(BEGIN, FullBegins) == BEGIN.(s := FirstRefresh(Started(1)))
  {
    assert After(NOTHING_YET, START, FullBegins) == NOTHING_YET;
  }

  lemma FirstAssembles(pull: Row)
    ensures var t := BEGIN.(s := FirstRefresh(Looked(1, EMPTY)));
            Assembles(t, OnHold(pull), 0)
            == BEGIN.(s := FirstRefresh(Ready(1, EMPTY, {pull.id.home.forge}, {}, OnHold(pull), {})))
  {
    CarriesNothing(pull, 1);
    NobodyAsked(pull);
    assert LeftOut(EMPTY, map[]) == {};
  }

  /** A run that carries a repository over with nothing written since its rows were taken. */
  lemma CarriedAndUnwritten(pull: Row, p: Part)
    ensures var t := Run([FullBegins, FullLooks, FullAssembles(OnHold(pull), 0)]);
            CarriesOver(t, p, pull.id.home) && SinceTaken(t, pull.id.home).written == {}
  {
    hide OnFullAssembles, Assembled;
    var events := [FullBegins, FullLooks, FullAssembles(OnHold(pull), 0)];
    assert events[..2][..1] == [FullBegins] && [FullBegins][..0] == [] && events[..2] == [FullBegins, FullLooks];
    FirstBegins();
    assert From(BEGIN, []) == BEGIN;
    assert From(BEGIN, [FullBegins]) == Next(BEGIN, FullBegins);
    assert From(BEGIN, events[..2]) == Looks(From(BEGIN, [FullBegins]));
    FirstAssembles(pull);
    assert Run(events) == Assembles(Run(events[..2]), OnHold(pull), 0);
    assert OnHold(pull)[..0] == [];
  }

  // ---- A tick undone, a settled pull request back ----

  function CarriedOver(pull: Row): State {
    State(Shown(pull), 2, {}, Carrying(pull, Shown(pull).snap), map[], {}, {})
  }

  lemma CarriedOverReachable(pull: Row)
    requires pull.stamp == 1
    ensures Reachable(CarriedOver(pull))
  {
    var s := State(Shown(pull), 1, {}, Idle, map[], {}, {});
    FetchingReachable(pull);
    FetchLands(pull, Fetching(pull));
    StepReachable(Fetching(pull), RepoLands(pull.id.home, [pull], [], true, 0));
    RefreshLooks(pull, s);
    StepReachable(s.(fetches := 2, full := Looked(2, Shown(pull).snap)), FullAssembles(OnHold(pull), 0));
    CarriesPull(pull);
    NobodyAsked(pull);
  }

  function TickedSince(pull: Row): State {
    CarriedOver(pull).(board := Board(Snapshot([pull.(box := true)], [], []), map[pull.id.home := 1], map[],
                                      map[pull.id := Override(true, 2)]))
  }

  /** A box ticked since the refresh carried its row over is right until it lands, and shown unticked then. */
  lemma ATickIsUndone(pull: Row)
    requires pull.stamp == 1 && !pull.box
    ensures Reachable(TickedSince(pull))
    ensures BoxesRight(TickedSince(pull).board) && !BoxesRight(OnFullLands(TickedSince(pull)).board)
  {
    var s := TickedSince(pull);
    CarriedOverReachable(pull);
    StepReachable(CarriedOver(pull), Ticks(pull.id, true));
    assert IndexOf([pull], pull.id) == 0;
    assert [pull][0 := pull.(box := true)] == [pull.(box := true)];
    assert Step(CarriedOver(pull), Ticks(pull.id, true)) == s;
    LandingBoxesIff(s.board, 2, Shown(pull).snap, {pull.id.home.forge}, {});
    assert pull in Shown(pull).snap.prs && !CarriesBox(s.board, 2, {pull.id.home.forge}, {}, pull);
  }

  function SettledSince(pull: Row): State {
    CarriedOver(pull).(board := Board(EMPTY, map[pull.id.home := 1], map[pull.id := 0], map[]))
  }

  /** A pull request merged from here since the refresh carried its row over comes back when it lands. */
  lemma ASettledOneComesBack(pull: Row)
    requires pull.stamp == 1
    ensures Reachable(SettledSince(pull))
    ensures SettledOff(SettledSince(pull).board, {}) && !SettledOff(OnFullLands(SettledSince(pull)).board, {})
  {
    var s := SettledSince(pull);
    CarriedOverReachable(pull);
    StepReachable(CarriedOver(pull), Settles(pull.id, 0));
    StepReachable(Step(CarriedOver(pull), Settles(pull.id, 0)), Leaves(pull.id));
    FilterNone([pull], NotIn({pull.id}));
    assert Step(Step(CarriedOver(pull), Settles(pull.id, 0)), Leaves(pull.id)) == s;
    LandingSettledIff(s.board, 2, Shown(pull).snap, {pull.id.home.forge}, {}, {});
    assert pull in Shown(pull).snap.prs && !CarriesOff(s.board, 2, {}, pull);
  }

  // ---- A tick undone by an earlier fetch, once a poll has settled it ----

  /** The pull request is listed, and a second fetch of its repository is under way. */
  function ReadAgain(pull: Row): State {
    State(Shown(pull), 2, {}, Idle, map[pull.id.home := 2], {}, {})
  }

  lemma ReadAgainReachable(pull: Row)
    requires pull.stamp == 1
    ensures Reachable(ReadAgain(pull))
  {
    FetchingReachable(pull);
    FetchLands(pull, Fetching(pull));
    StepReachable(Fetching(pull), RepoLands(pull.id.home, [pull], [], true, 0));
    var s := State(Shown(pull), 1, {}, Idle, map[], {}, {});
    StepReachable(s, RepoBegins(pull.id.home));
    assert Step(s, RepoBegins(pull.id.home)) == ReadAgain(pull);
  }

  /** The box is ticked, and a poll begins. */
  function TickedAndPolling(pull: Row): State {
    State(Board(Snapshot([pull.(box := true)], [], []), map[pull.id.home := 1], map[], map[pull.id := Override(true, 2)]),
          3, {}, Idle, map[pull.id.home := 2], {3}, {})
  }

  lemma TickedAndPollingReached(pull: Row)
    ensures Step(Step(ReadAgain(pull), Ticks(pull.id, true)), PollBegins) == TickedAndPolling(pull)
  {
    assert IndexOf([pull], pull.id) == 0;
    assert [pull][0 := pull.(box := true)] == [pull.(box := true)];
  }

  /** What a poll answers that read the box as ticked. */
  function Answering(pull: Row): map<Id, Row> {
    map[pull.id := pull.(box := true)]
  }

  lemma PollsOne(pull: Row)
    ensures IsPoll(Answering(pull), {}, [pull.id.home])
    ensures var shares := PollShares(3, Answering(pull), {}, [pull.id.home]);
      && |shares| == 1 && shares[0].repo == pull.id.home && AllFit(shares) && OneEach(shares)
      && shares[0].source.Polled? && shares[0].source.closed == {} && ReadOf(shares[0].source) == Only({pull.id})
  {
    var none: set<Id> := {};
    assert Answering(pull).Keys + none == {pull.id};
    assert [pull.id.home][0] == pull.id.home;
    assert (set k | k in [pull.id.home]) == (set id | id in {pull.id} :: id.home);
  }

  /** The poll ends the override: it began after, and read the row. */
  lemma PollEndsIt(pull: Row, shares: seq<Share>)
    requires AllFit(shares) && OneEach(shares) && |shares| == 1 && shares[0].repo == pull.id.home
    requires shares[0].source.Polled? && shares[0].source.closed == {} && ReadOf(shares[0].source) == Only({pull.id})
    ensures var after := MergedFrom(TickedAndPolling(pull).board, 3, shares, 0);
      pull.id !in after.overrides && pull.id in Listed(after.snap.prs)
  {
    hide MergedFrom, NewRows, SharePrs, ShareIssues, Held, NotNewer;
    var b, k := TickedAndPolling(pull).board, pull.id.home;
    var after := MergedFrom(b, 3, shares, 0);
    NotNewerThanPoll(pull);
    AFreshPollLands(b, 3, shares, 0, 0);
    NotSkipped(b, shares[0], 3);
    NamedReplaced(b, 3, shares, 0, 0);
    assert pull.(box := true) in b.snap.prs;
    assert pull.id in Listed(after.snap.prs);
    assert AgreeOn(after.overrides, Unretired(b.overrides, 3, Listed(At(after.snap.prs, k)), Repo(k), Only({pull.id})), k);
  }

  lemma NotNewerThanPoll(pull: Row)
    ensures NotNewer(TickedAndPolling(pull).board, pull.id.home, 3)
  {
  }

  /** The poll reads the box as ticked, and so ends the override. */
  lemma ThePollSettles(pull: Row)
    ensures var s := Step(TickedAndPolling(pull), PollLands(3, Answering(pull), {}, [pull.id.home], 0));
      && s.reading == map[pull.id.home := 2] && pull.id !in s.board.overrides && pull.id !in s.board.settled
      && pull.id in Listed(s.board.snap.prs)
  {
    hide MergedFrom, Answering, PollShares, IsPoll;
    PollsOne(pull);
    PollEndsIt(pull, PollShares(3, Answering(pull), {}, [pull.id.home]));
    StepKeepsMarks(TickedAndPolling(pull), PollLands(3, Answering(pull), {}, [pull.id.home], 0));
  }

  /**
   * The one way a fetch begun before the tick undoes it: a poll begun after has read the row and ended
   * the override, and then the earlier fetch, which read the box unticked, lands.
   */
  lemma AnEarlierFetchUndoesATick(pull: Row)
    requires pull.stamp == 1 && !pull.box
    ensures Reachable(ReadAgain(pull))
    ensures var k := pull.id.home;
      var polled := Step(Step(Step(ReadAgain(pull), Ticks(pull.id, true)), PollBegins),
                         PollLands(3, Answering(pull), {}, [k], 0));
      var after := Step(polled, RepoLands(k, [pull], [], true, 0)).board;
      pull.id in Listed(after.snap.prs) && forall r | r in after.snap.prs && r.id == pull.id :: !r.box
  {
    hide MergedFrom;
    ReadAgainReachable(pull);
    TickedAndPollingReached(pull);
    ThePollSettles(pull);
    var k := pull.id.home;
    var polled := Step(TickedAndPolling(pull), PollLands(3, Answering(pull), {}, [k], 0));
    TheFetchLandsUnticked(pull, polled);
  }

  lemma FetchOfOne(b: Board, pull: Row)
    requires pull.id !in b.overrides && pull.id !in b.settled
    ensures At(MergedFrom(b, 2, [RepoShare(pull.id.home, 2, [pull], [], true)], 0).snap.prs, pull.id.home) == [pull.(stamp := 2)]
  {
    hide MergedFrom;
    var k, read := pull.id.home, pull.(stamp := 2);
    var shares := [RepoShare(k, 2, [pull], [], true)];
    assert shares[0] == Share(k, Fetched([read], [], true)) by {
      assert Map([pull], Stamp(2)) == [read] && Map([], Stamp(2)) == [];
    }
    AFetchLands(b, 2, shares, 0, 0);
    FilterAll([read], StaysFetched(b, 0));
    assert Map([read], AfterFetch(b, 2)) == [read];
    OnlyOne(At(MergedFrom(b, 2, shares, 0).snap.prs, k), read);
  }

  lemma TheFetchLandsUnticked(pull: Row, s: State)
    requires !pull.box && s.reading == map[pull.id.home := 2] && pull.id !in s.board.overrides && pull.id !in s.board.settled
    ensures var after := Step(s, RepoLands(pull.id.home, [pull], [], true, 0)).board;
      pull.id in Listed(after.snap.prs) && forall r | r in after.snap.prs && r.id == pull.id :: !r.box
  {
    hide MergedFrom, RepoShare;
    FetchOfOne(s.board, pull);
    assert AllOf([pull], pull.id.home) && AllOf([], pull.id.home);
    var prs := Step(s, RepoLands(pull.id.home, [pull], [], true, 0)).board.snap.prs;
    FilterHas(prs, Of(pull.id.home));
    assert pull.(stamp := 2) in At(prs, pull.id.home);
  }
}
