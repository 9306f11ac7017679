/** The rebase box and the settled marks, over every run: what the user did here is not undone. */
module BoxRuns {
  import opened Prelude
  import opened Seqs
  import opened Rows
  import opened Merge
  import opened Refresh
  import opened RefreshRuns
  import opened Taken

  ghost predicate BoxRight(b: Board, r: Row) {
    r.id in b.overrides ==> r.box == b.overrides[r.id].ticked
  }

  /** Every listed pull request with an override shows the override's box. */
  ghost predicate BoxesRight(b: Board) {
    forall r | r in b.snap.prs :: BoxRight(b, r)
  }

  ghost predicate Off(settled: map<Id, int>, leaving: set<Id>, r: Row) {
    r.id in settled ==> r.id in leaving
  }

  /** A settled pull request is off the board, but for the instant MarkSettled takes. */
  ghost predicate SettledOff(b: Board, leaving: set<Id>) {
    forall r | r in b.snap.prs :: Off(b.settled, leaving, r)
  }

  // ---- Each pull request is listed once ----

  lemma CountAt(rows: seq<Row>, id: Id)
    ensures Count(At(rows, id.home), id) == Count(rows, id)
  {
    FilterTwice(rows, Of(id.home), HasId(id));
  }

  lemma CountSame(xs: seq<Row>, ys: seq<Row>, id: Id)
    requires Same(xs, ys)
    ensures Count(xs, id) == Count(ys, id)
  {
    FilterSame(xs, ys, HasId(id));
    assert |Filter(xs, HasId(id))| == |multiset(Filter(xs, HasId(id)))|;
    assert |Filter(ys, HasId(id))| == |multiset(Filter(ys, HasId(id)))|;
  }

  lemma CountMap(rows: seq<Row>, f: Row -> Row, id: Id)
    requires forall r: Row :: f(r).id == r.id
    ensures Count(Map(rows, f), id) == Count(rows, id)
  {
    FilterMap(rows, HasId(id), f);
  }

  lemma {:induction false} CountFewer(rows: seq<Row>, keep: Row -> bool, id: Id)
    ensures Count(Filter(rows, keep), id) <= Count(rows, id)
  {
    if rows != [] {
      var most, last := rows[..|rows| - 1], rows[|rows| - 1];
      CountFewer(most, keep, id);
      SplitLast(rows);
      if keep(last) {
        FilterLast(Filter(most, keep), last, HasId(id));
      } else {
        assert Filter(rows, keep) == Filter(most, keep);
      }
    }
  }

  lemma CountTwo(rows: seq<Row>, i: nat, j: nat)
    requires i < j < |rows| && rows[i].id == rows[j].id
    ensures Count(rows, rows[i].id) >= 2
  {
    var id, a, b, c := rows[i].id, rows[..i], rows[i + 1..j], rows[j + 1..];
    assert rows == a + ([rows[i]] + (b + ([rows[j]] + c)));
    FilterOne(a, rows[i], b + ([rows[j]] + c), HasId(id));
    FilterOne(b, rows[j], c, HasId(id));
  }

  lemma OnceEach(rows: seq<Row>, i: nat, j: nat)
    requires Distinct(rows) && i < j < |rows|
    ensures rows[i].id != rows[j].id
  {
    if rows[i].id == rows[j].id {
      CountTwo(rows, i, j);
    }
  }

  lemma AlikeCount(b: Board, c: Board, id: Id)
    requires Alike(b, c, id.home)
    ensures Count(b.snap.prs, id) == Count(c.snap.prs, id)
  {
    CountAt(b.snap.prs, id);
    CountAt(c.snap.prs, id);
    CountSame(At(b.snap.prs, id.home), At(c.snap.prs, id.home), id);
  }

  /** A fetch of a repository lists each of its pull requests once. */
  ghost predicate ListsOnce(share: Share) {
    share.source.Fetched? ==> Distinct(share.source.prs)
  }

  lemma SharesCount(snap: Snapshot, share: Share, id: Id)
    requires Fits(share) && ListsOnce(share) && Distinct(snap.prs)
    ensures Count(SharePrs(snap, share), id) <= 1
  {
    if share.source.Polled? {
      CountMap(Filter(At(snap.prs, share.repo), NotIn(share.source.closed)), Fresh(share.source.pulls), id) by {
        assert forall r: Row :: Fresh(share.source.pulls)(r).id == r.id;
      }
      CountFewer(At(snap.prs, share.repo), NotIn(share.source.closed), id);
      CountFewer(snap.prs, Of(share.repo), id);
    }
  }

  lemma ReplacedCount(b: Board, after: Board, n: nat, share: Share, oldest: int, id: Id)
    requires Replaces(b, after, n, share, oldest) && id.home == share.repo
    requires Fits(share) && ListsOnce(share) && Distinct(b.snap.prs)
    ensures Count(after.snap.prs, id) <= 1
  {
    var prs := SharePrs(b.snap, share);
    var held := Held(b.settled, Listed(prs), Some(share.repo), oldest);
    CountAt(after.snap.prs, id);
    CountSame(At(after.snap.prs, share.repo), NewRows(b, share.repo, n, prs, ReadOf(share.source), oldest), id);
    CountMap(Unsettled(prs, held), Boxed(b.overrides, n, Repo(share.repo), ReadOf(share.source)), id);
    CountFewer(prs, NotIn(held.Keys), id);
    SharesCount(b.snap, share, id);
  }

  // ---- Merges ----

  /** What a poll did not read it took from the board as it was. */
  lemma UnreadIsOld(snap: Snapshot, share: Share, q: Row)
    requires Fits(share)
    requires q in SharePrs(snap, share) && !Reads(ReadOf(share.source), q.id)
    ensures q in snap.prs
  {
    var rows := Filter(At(snap.prs, share.repo), NotIn(share.source.closed));
    FilterHas(snap.prs, Of(share.repo));
    FilterHas(At(snap.prs, share.repo), NotIn(share.source.closed));
    var i :| 0 <= i < |rows| && Fresh(share.source.pulls)(rows[i]) == q;
    assert rows[i] in rows;
  }

  lemma ReplacedRow(b: Board, after: Board, n: nat, share: Share, oldest: int, r: Row)
    requires Replaces(b, after, n, share, oldest) && Fits(share)
    requires r in after.snap.prs && r.id.home == share.repo && BoxesRight(b)
    ensures BoxRight(after, r) && r.id !in after.settled
  {
    var k, prs := share.repo, SharePrs(b.snap, share);
    var held := Held(b.settled, Listed(prs), Some(k), oldest);
    var f := Boxed(b.overrides, n, Repo(k), ReadOf(share.source));
    InAt(after.snap.prs, r);
    SameListed(At(after.snap.prs, k), NewRows(b, k, n, prs, ReadOf(share.source), oldest));
    var rows := Unsettled(prs, held);
    var i :| 0 <= i < |rows| && f(rows[i]) == r;
    FilterHas(prs, NotIn(held.Keys));
    var q := rows[i];
    assert q in prs && q.id !in held;
    if q.id in after.overrides && !Reads(ReadOf(share.source), q.id) {
      UnreadIsOld(b.snap, share, q);
      assert BoxRight(b, q);
    }
  }

  lemma AlikeRow(b: Board, after: Board, leaving: set<Id>, r: Row)
    requires Alike(after, b, r.id.home) && r in after.snap.prs
    requires BoxesRight(b) && SettledOff(b, leaving)
    ensures BoxRight(after, r) && Off(after.settled, leaving, r)
  {
    AlikeHas(after, b, r, Prs);
    assert BoxRight(b, r) && Off(b.settled, leaving, r);
  }

  ghost predicate AllOnce(shares: seq<Share>) {
    forall i | 0 <= i < |shares| :: ListsOnce(shares[i])
  }

  /** Any merge keeps the boxes right, the settled off the board, and each pull request listed once. */
  lemma MergeRight(b: Board, after: Board, n: nat, shares: seq<Share>, oldest: int, leaving: set<Id>)
    requires Merges(b, after, n, shares, oldest) && AllFit(shares) && AllOnce(shares)
    requires BoxesRight(b) && SettledOff(b, leaving) && Distinct(b.snap.prs)
    ensures BoxesRight(after) && SettledOff(after, leaving) && Distinct(after.snap.prs)
  {
    forall r | r in after.snap.prs ensures BoxRight(after, r) && Off(after.settled, leaving, r) {
      if Alike(after, b, r.id.home) {
        AlikeRow(b, after, leaving, r);
      } else {
        var i :| 0 <= i < |shares| && ReplacedBy(b, after, n, shares[i], oldest, r.id.home);
        ReplacedRow(b, after, n, shares[i], oldest, r);
      }
    }
    forall id: Id ensures Count(after.snap.prs, id) <= 1 {
      if Alike(after, b, id.home) {
        AlikeCount(after, b, id);
      } else {
        var i :| 0 <= i < |shares| && ReplacedBy(b, after, n, shares[i], oldest, id.home);
        ReplacedCount(b, after, n, shares[i], oldest, id);
      }
    }
  }

  // ---- Landing a full refresh ----

  lemma MixedHas(rows: seq<Row>, current: seq<Row>, newer: set<RepoKey>, q: Row)
    ensures q in Mixed(rows, current, newer) <==> q in (if q.id.home in newer then current else rows)
  {
    FilterHas(rows, NotInRepos(newer));
    FilterHas(current, InRepos(newer));
  }

  lemma KeptHas(snap: Snapshot, current: Snapshot, newer: set<RepoKey>, q: Row)
    ensures q in KeepNewer(snap, current, newer).prs <==> q in (if q.id.home in newer then current.prs else snap.prs)
  {
    if newer != {} {
      SortHas(Mixed(snap.prs, current.prs, newer));
      MixedHas(snap.prs, current.prs, newer, q);
    }
  }

  /** A carried-over row of no newer repository shows the box set here, if one was. */
  ghost predicate CarriesBox(b: Board, n: nat, reached: set<Forge>, read: set<Id>, q: Row) {
    q.id.home !in Newer(b.scoped, n) && q.id in b.overrides && !(q.id.home.forge in reached && q.id in read)
    ==> q.box == b.overrides[q.id].ticked
  }

  /**
   * Landing keeps the boxes right exactly when every row it carries over, for a repository no newer
   * merge wrote, already shows the box that was set here.
   */
  lemma LandingBoxesIff(b: Board, n: nat, snap: Snapshot, reached: set<Forge>, read: set<Id>)
    requires BoxesRight(b)
    ensures BoxesRight(Landed(b, n, snap, reached, read)) <==> forall q | q in snap.prs :: CarriesBox(b, n, reached, read, q)
  {
    var after, newer, f := Landed(b, n, snap, reached, read), Newer(b.scoped, n), Boxed(b.overrides, n, Forges(reached), Only(read));
    var kept := KeepNewer(snap, b.snap, newer).prs;
    if BoxesRight(after) {
      forall q | q in snap.prs ensures CarriesBox(b, n, reached, read, q) {
        if q.id.home !in newer && q.id in b.overrides && !(q.id.home.forge in reached && q.id in read) {
          KeptHas(snap, b.snap, newer, q);
          var i :| 0 <= i < |kept| && kept[i] == q;
          assert after.snap.prs[i] == q && BoxRight(after, q);
        }
      }
    }
    if forall q | q in snap.prs :: CarriesBox(b, n, reached, read, q) {
      forall r | r in after.snap.prs ensures BoxRight(after, r) {
        var i :| 0 <= i < |kept| && f(kept[i]) == r;
        var q := kept[i];
        KeptHas(snap, b.snap, newer, q);
        assert q.id in Listed(kept);
        if q.id.home in newer {
          assert BoxRight(b, q);
        } else {
          assert CarriesBox(b, n, reached, read, q);
        }
      }
    }
  }

  ghost predicate CarriesOff(b: Board, n: nat, leaving: set<Id>, q: Row) {
    q.id.home !in Newer(b.scoped, n) ==> Off(b.settled, leaving, q)
  }

  /** Landing keeps the settled off the board exactly when nothing it brings was settled meanwhile. */
  lemma LandingSettledIff(b: Board, n: nat, snap: Snapshot, reached: set<Forge>, read: set<Id>, leaving: set<Id>)
    requires SettledOff(b, leaving)
    ensures SettledOff(Landed(b, n, snap, reached, read), leaving) <==> forall q | q in snap.prs :: CarriesOff(b, n, leaving, q)
  {
    var after, newer, f := Landed(b, n, snap, reached, read), Newer(b.scoped, n), Boxed(b.overrides, n, Forges(reached), Only(read));
    var kept := KeepNewer(snap, b.snap, newer).prs;
    if SettledOff(after, leaving) {
      forall q | q in snap.prs ensures CarriesOff(b, n, leaving, q) {
        if q.id.home !in newer {
          KeptHas(snap, b.snap, newer, q);
          var i :| 0 <= i < |kept| && kept[i] == q;
          assert Off(after.settled, leaving, after.snap.prs[i]);
        }
      }
    }
    if forall q | q in snap.prs :: CarriesOff(b, n, leaving, q) {
      forall r | r in after.snap.prs ensures Off(after.settled, leaving, r) {
        var i :| 0 <= i < |kept| && f(kept[i]) == r;
        var q := kept[i];
        KeptHas(snap, b.snap, newer, q);
        assert q.id.home in newer ==> Off(b.settled, leaving, q);
        assert q.id.home !in newer ==> CarriesOff(b, n, leaving, q);
      }
    }
  }

  lemma LandedCount(b: Board, n: nat, snap: Snapshot, reached: set<Forge>, read: set<Id>)
    requires Distinct(b.snap.prs) && Distinct(snap.prs)
    ensures Distinct(Landed(b, n, snap, reached, read).snap.prs)
  {
    forall id: Id ensures Count(Landed(b, n, snap, reached, read).snap.prs, id) <= 1 {
      var newer := Newer(b.scoped, n);
      var kept := KeepNewer(snap, b.snap, newer).prs;
      CountMap(kept, Boxed(b.overrides, n, Forges(reached), Only(read)), id);
      CountAt(kept, id);
      KeepNewerAt(snap, b.snap, newer, Prs, id.home);
      var from := if id.home in newer then b.snap.prs else snap.prs;
      CountSame(At(kept, id.home), At(from, id.home), id);
      CountAt(from, id);
    }
  }

  // ---- Every run ----

  /** When the refresh ready to land keeps what the user did here. */
  ghost predicate LandsClean(s: State) {
    s.full.Ready? ==>
      forall q | q in s.full.snap.prs ::
        CarriesBox(s.board, s.full.n, s.full.reached, s.full.read, q) && CarriesOff(s.board, s.full.n, s.leaving, q)
  }

  ghost predicate Right(s: State) {
    && BoxesRight(s.board) && SettledOff(s.board, s.leaving) && Distinct(s.board.snap.prs)
    && (s.full.Ready? ==> Distinct(s.full.snap.prs))
  }

  lemma RepoLandsRight(s: State, k: RepoKey, prs: seq<Row>, issues: seq<Row>, whole: bool, oldest: int)
    requires Right(s) && Distinct(prs)
    ensures Right(OnRepoLands(s, k, prs, issues, whole, oldest))
  {
    if k in s.reading && AllOf(prs, k) && AllOf(issues, k) {
      var n := s.reading[k];
      var shares := [RepoShare(k, n, prs, issues, whole)];
      forall id: Id ensures Count(Map(prs, Stamp(n)), id) <= 1 {
        CountMap(prs, Stamp(n), id);
      }
      MergedFromMerges(s.board, n, shares, oldest);
      MergeRight(s.board, MergedFrom(s.board, n, shares, oldest), n, shares, oldest, s.leaving);
    }
  }

  lemma PollLandsRight(s: State, n: nat, pulls: map<Id, Row>, closed: set<Id>, order: seq<RepoKey>, oldest: int)
    requires Right(s)
    ensures Right(OnPollLands(s, n, pulls, closed, order, oldest))
  {
    if n in s.polling && IsPoll(pulls, closed, order) {
      var shares := PollShares(n, pulls, closed, order);
      var read: map<Id, Row> := map id | id in pulls :: pulls[id].(stamp := n);
      assert read.Keys == pulls.Keys;
      MergedFromMerges(s.board, n, shares, oldest);
      MergeRight(s.board, MergedFrom(s.board, n, shares, oldest), n, shares, oldest, s.leaving);
    }
  }

  lemma FullLandsRight(s: State)
    requires Right(s) && LandsClean(s)
    ensures Right(OnFullLands(s))
  {
    if s.full.Ready? {
      LandingBoxesIff(s.board, s.full.n, s.full.snap, s.full.reached, s.full.read);
      LandingSettledIff(s.board, s.full.n, s.full.snap, s.full.reached, s.full.read, s.leaving);
      LandedCount(s.board, s.full.n, s.full.snap, s.full.reached, s.full.read);
    }
  }

  lemma TicksRight(s: State, id: Id, ticked: bool)
    requires Right(s)
    ensures Right(OnTicks(s, id, ticked))
  {
    var prs := s.board.snap.prs;
    var i := IndexOf(prs, id);
    if i < |prs| {
      var after := OnTicks(s, id, ticked).board;
      forall j | 0 <= j < |prs| ensures BoxRight(after, after.snap.prs[j]) && Off(after.settled, s.leaving, after.snap.prs[j]) {
        assert prs[j] in prs && BoxRight(s.board, prs[j]) && Off(s.board.settled, s.leaving, prs[j]);
        if j < i {
          OnceEach(prs, j, i);
        } else if i < j {
          OnceEach(prs, i, j);
        }
      }
      forall d: Id ensures Count(after.snap.prs, d) <= 1 {
        CountMap(prs, Unboxed(), d);
        CountMap(after.snap.prs, Unboxed(), d);
        assert Map(prs, Unboxed()) == Map(after.snap.prs, Unboxed());
      }
    }
  }

  lemma LeavesRight(s: State, id: Id)
    requires Right(s)
    ensures Right(OnLeaves(s, id))
  {
    FilterHas(s.board.snap.prs, NotIn({id}));
    forall d: Id ensures Count(Filter(s.board.snap.prs, NotIn({id})), d) <= 1 {
      CountFewer(s.board.snap.prs, NotIn({id}), d);
    }
    var after := OnLeaves(s, id);
    forall r | r in after.board.snap.prs ensures BoxRight(after.board, r) && Off(after.board.settled, after.leaving, r) {
      assert BoxRight(s.board, r) && Off(s.board.settled, s.leaving, r);
    }
  }

  lemma OthersRight(s: State, s': State)
    requires Right(s)
    requires s'.board.snap == s.board.snap && s'.board.overrides == s.board.overrides
    requires forall id | id in s'.board.settled :: id in s.board.settled || id in s'.leaving
    requires s.leaving <= s'.leaving
    requires s'.full.Ready? ==> Distinct(s'.full.snap.prs)
    ensures Right(s')
  {
    forall r | r in s'.board.snap.prs ensures BoxRight(s'.board, r) && Off(s'.board.settled, s'.leaving, r) {
      assert BoxRight(s.board, r) && Off(s.board.settled, s.leaving, r);
    }
  }

  lemma StepRight(s: State, e: Event)
    requires Right(s)
    requires e.RepoLands? ==> Distinct(e.prs)
    requires e.FullAssembles? && Step(s, e).full.Ready? ==> Distinct(Step(s, e).full.snap.prs)
    requires e.FullLands? ==> LandsClean(s)
    ensures Right(Step(s, e))
  {
    match e
    case FullLands => FullLandsRight(s);
    case RepoLands(k, prs, issues, whole, oldest) => RepoLandsRight(s, k, prs, issues, whole, oldest);
    case PollLands(n, pulls, closed, order, oldest) => PollLandsRight(s, n, pulls, closed, order, oldest);
    case Ticks(id, ticked) => TicksRight(s, id, ticked);
    case Leaves(id) => LeavesRight(s, id);
    case FullBegins => OthersRight(s, Step(s, e));
    case FullAssembles(_, _) => OthersRight(s, Step(s, e));
    case FullLooks => OthersRight(s, Step(s, e));
    case RepoBegins(_) => OthersRight(s, Step(s, e));
    case RepoFails(_) => OthersRight(s, Step(s, e));
    case PollBegins => OthersRight(s, Step(s, e));
    case Settles(_, _) => OthersRight(s, Step(s, e));
    case Unsettles(_) => OthersRight(s, Step(s, e));
  }

  // ---- When a landing is clean ----

  /** A refresh whose sources keep their promises lists each pull request once. */
  lemma GatheredOnce(answers: seq<Answer>, n: nat, earlier: Earlier, had: set<Forge>, id: Id)
    requires Sound(answers) && Distinct(earlier.start.prs) && Distinct(earlier.now.prs)
    ensures Count(AllRows(answers, Prs, n, earlier, had), id) <= 1
  {
    var all, k := AllRows(answers, Prs, n, earlier, had), id.home;
    CountAt(all, id);
    if Carried(answers, Prs, had, k) {
      CarriedAsItWas(answers, Prs, n, earlier, had, k);
      CountAt(TakenFrom(answers, had, earlier, k).prs, id);
    } else if i :| 0 <= i < |answers| && answers[i].forge == k.forge {
      FromItsSource(answers, Prs, n, earlier, had, k, i);
      RowsFromAt(answers[i], Prs, n, earlier, had, k);
      assert answers[i].Asked?;
      CountMap(At(answers[i].prs, k), Stamp(n), id);
      CountAt(answers[i].prs, id);
    } else {
      NoneFromOthers(answers, Prs, n, earlier, had, k);
    }
  }

  lemma AssembledOnce(answers: seq<Answer>, n: nat, earlier: Earlier, had: set<Forge>, held: map<Id, int>)
    requires Sound(answers) && Distinct(earlier.start.prs) && Distinct(earlier.now.prs)
    ensures Distinct(LessSettled(Gathered(answers, n, earlier, had), held).prs)
  {
    var all := AllRows(answers, Prs, n, earlier, had);
    forall id: Id ensures Count(SortByRecency(Unsettled(all, held)), id) <= 1 {
      GatheredOnce(answers, n, earlier, had, id);
      CountFewer(all, NotIn(held.Keys), id);
      CountSame(SortByRecency(Unsettled(all, held)), Unsettled(all, held), id);
    }
  }

  /** Every row taken shows the box set here, unless it was set since. */
  ghost predicate BoxesSince(b: Board, taken: seq<Row>, since: Since) {
    forall r | r in taken :: r.id in since.ticked || BoxRight(b, r)
  }

  lemma {:induction false} SharesKeepMarks(b: Board, n: nat, shares: seq<Share>, oldest: int)
    ensures forall id | id in MergedShares(b, n, shares, oldest).overrides ::
              id in b.overrides && MergedShares(b, n, shares, oldest).overrides[id] == b.overrides[id]
    ensures MergedShares(b, n, shares, oldest).settled.Keys <= b.settled.Keys
  {
    if shares != [] {
      SharesKeepMarks(b, n, shares[..|shares| - 1], oldest);
    }
  }

  /** No step sets an override but a tick of its own, or marks a pull request but its settling. */
  lemma StepKeepsMarks(s: State, e: Event)
    ensures forall id | id in Step(s, e).board.overrides && !(e.Ticks? && e.id == id) ::
              id in s.board.overrides && Step(s, e).board.overrides[id] == s.board.overrides[id]
    ensures forall id | id in Step(s, e).board.settled ::
              (id in s.board.settled || (e.Settles? && e.id == id)) && !(e.Unsettles? && e.id == id)
  {
    hide MergedShares, Gathered, KeepNewer;
    match e
    case RepoLands(k, prs, issues, whole, oldest) =>
      if k in s.reading && AllOf(prs, k) && AllOf(issues, k) {
        SharesKeepMarks(s.board, s.reading[k], [RepoShare(k, s.reading[k], prs, issues, whole)], oldest);
      }
    case PollLands(n, pulls, closed, order, oldest) =>
      SharesKeepMarks(s.board, n, PollShares(n, pulls, closed, order), oldest);
    case _ =>
  }

  lemma BoxesGoOn(s: State, e: Event, taken: seq<Row>, since: Since)
    requires BoxesSince(s.board, taken, since)
    ensures BoxesSince(Step(s, e).board, taken, After(since, s, e))
  {
    hide Step, Writes;
    StepKeepsMarks(s, e);
    forall r | r in taken ensures r.id in After(since, s, e).ticked || BoxRight(Step(s, e).board, r) {
      assert r.id in since.ticked || BoxRight(s.board, r);
    }
  }

  /** What a refresh in flight has taken: each pull request once, its box right but for ticks since. */
  ghost predicate TakenRight(t: Trace) {
    && (t.s.full.Looked? || t.s.full.Ready? ==>
          Distinct(t.earlier.start.prs) && BoxesSince(t.s.board, t.earlier.start.prs, t.sinceStart))
    && (t.s.full.Ready? ==>
          && Distinct(t.earlier.now.prs) && BoxesSince(t.s.board, t.earlier.now.prs, t.sinceNow)
          && Sound(t.s.full.answers)
          && t.s.full.reached == Reached(t.s.full.answers) && t.s.full.read == RowsRead(t.s.full.answers)
          && (forall r | r in t.s.full.snap.prs && r.id in t.s.board.settled :: r.id in t.settled))
  }

  /**
   * Since its row was taken, no pull request the refresh carries over, for a repository no newer merge
   * wrote, was ticked or cancelled; and since the refresh left the settled out, none it brings was
   * settled, but for one just leaving the board.
   */
  ghost predicate Undisturbed(t: Trace) {
    t.s.full.Ready? ==>
      forall q | q in t.s.full.snap.prs && !Guards(t.s, q.id.home) ::
        && (Carried(t.s.full.answers, Prs, t.s.full.had, q.id.home) ==> q.id !in SinceTaken(t, q.id.home).ticked)
        && (q.id in t.settled ==> q.id in t.s.leaving)
  }

  lemma BringsRow(t: Trace, q: Row)
    requires Known(t) && t.s.full.Ready? && q in t.s.full.snap.prs
    ensures q in AllRows(t.s.full.answers, Prs, t.s.full.n, t.earlier, t.s.full.had)
  {
    hide StillSince;
    var all := AllRows(t.s.full.answers, Prs, t.s.full.n, t.earlier, t.s.full.had);
    SortHas(Unsettled(all, t.held));
    FilterHas(all, NotIn(t.held.Keys));
  }

  lemma CarriedBoxRight(t: Trace, q: Row)
    requires Known(t) && TakenRight(t) && Undisturbed(t) && t.s.full.Ready? && q in t.s.full.snap.prs
    ensures CarriesBox(t.s.board, t.s.full.n, t.s.full.reached, t.s.full.read, q)
  {
    hide StillSince;
    var full, k := t.s.full, q.id.home;
    BringsRow(t, q);
    if !Carried(full.answers, Prs, full.had, k) {
      ReadOrCarried(full.answers, full.n, t.earlier, full.had, q);
    } else if !Guards(t.s, k) {
      var from := TakenFrom(full.answers, full.had, t.earlier, k).prs;
      CarriedAsItWas(full.answers, Prs, full.n, t.earlier, full.had, k);
      InAt(AllRows(full.answers, Prs, full.n, t.earlier, full.had), q);
      InAt(from, q);
      assert q.id in SinceTaken(t, k).ticked || BoxRight(t.s.board, q);
    }
  }

  /** So a landing undisturbed is clean. */
  lemma UndisturbedIsClean(t: Trace)
    requires Known(t) && TakenRight(t) && Undisturbed(t)
    ensures LandsClean(t.s)
  {
    hide Known, CarriesBox;
    if t.s.full.Ready? {
      forall q | q in t.s.full.snap.prs
        ensures CarriesBox(t.s.board, t.s.full.n, t.s.full.reached, t.s.full.read, q)
        ensures CarriesOff(t.s.board, t.s.full.n, t.s.leaving, q)
      {
        CarriedBoxRight(t, q);
      }
    }
  }

  lemma NextTakenRight(t: Trace, e: Event)
    requires Right(t.s) && TakenRight(t) && Known(t)
    requires e.FullAssembles? ==> Sound(e.answers)
    ensures TakenRight(Next(t, e))
  {
    hide BoxesSince, Known;
    if e.FullLooks? && t.s.full.Started? {
      TakenNow(t.s.board);
    } else if e.FullAssembles? && t.s.full.Looked? {
      AssemblesTaken(t, e.answers, e.oldest);
    } else if e.FullBegins? && t.s.full.Idle? {
    } else if !(e.FullLands? && t.s.full.Ready?) {
      if !e.FullLands? { FullStays(t.s, e); }
      OtherTaken(t, e);
    }
  }

  lemma TakenNow(b: Board)
    requires BoxesRight(b)
    ensures forall since :: BoxesSince(b, b.snap.prs, since)
  {
  }

  lemma AssemblesTaken(t: Trace, answers: seq<Answer>, oldest: int)
    requires Right(t.s) && TakenRight(t) && Known(t) && t.s.full.Looked? && Sound(answers)
    ensures TakenRight(Assembles(t, answers, oldest))
  {
    hide StillSince, Gathered;
    var u := Assembles(t, answers, oldest);
    AssemblesKnown(t, answers, oldest);
    AssembledIs(answers, t.s.full.n, u.earlier, t.s.good, t.s.board.settled, oldest);
    var all := Gathered(answers, t.s.full.n, u.earlier, t.s.good);
    forall r | r in u.s.full.snap.prs ensures r.id !in u.s.board.settled {
      SortHas(Unsettled(all.prs, u.held));
      FilterHas(all.prs, NotIn(u.held.Keys));
    }
  }

  lemma OtherTaken(t: Trace, e: Event)
    requires TakenRight(t) && Step(t.s, e).full == t.s.full
    requires !(e.FullLooks? && t.s.full.Started?) && !(e.FullAssembles? && t.s.full.Looked?)
    ensures TakenRight(Next(t, e))
  {
    hide Step, BoxesSince, After;
    StepKeepsMarks(t.s, e);
    if t.s.full.Looked? || t.s.full.Ready? {
      BoxesGoOn(t.s, e, t.earlier.start.prs, t.sinceStart);
    }
    if t.s.full.Ready? {
      BoxesGoOn(t.s, e, t.earlier.now.prs, t.sinceNow);
    }
  }

  // ---- The theorem ----

  /** What the runs below assume: the forges keep their promises, and landings are undisturbed. */
  ghost predicate Admits(t: Trace, e: Event) {
    match e
    case RepoLands(_, prs, _, _, _) => Distinct(prs)
    case FullAssembles(answers, _) => Sound(answers)
    case FullLands => Undisturbed(t)
    case _ => true
  }

  ghost predicate Admitted(events: seq<Event>) {
    events == [] || (Admitted(events[..|events| - 1]) && Admits(Run(events[..|events| - 1]), events[|events| - 1]))
  }

  lemma NextRight(t: Trace, e: Event)
    requires Right(t.s) && TakenRight(t) && Known(t) && Admits(t, e)
    ensures Right(Next(t, e).s) && TakenRight(Next(t, e))
  {
    hide Right, TakenRight, Known, Undisturbed, LandsClean;
    NextTakenRight(t, e);
    NextSteps(t, e);
    if e.FullLands? {
      UndisturbedIsClean(t);
    } else if e.FullAssembles? {
      AssemblesOnce(t, e);
    }
    StepRight(t.s, e);
  }

  lemma AssemblesOnce(t: Trace, e: Event)
    requires Right(t.s) && TakenRight(t) && Known(t) && e.FullAssembles? && Sound(e.answers)
    ensures Step(t.s, e).full.Ready? ==> Distinct(Step(t.s, e).full.snap.prs)
  {
    hide StillSince, Gathered, Distinct;
    if t.s.full.Looked? {
      var u := Assembles(t, e.answers, e.oldest);
      AssembledIs(e.answers, t.s.full.n, u.earlier, t.s.good, t.s.board.settled, e.oldest);
      AssembledOnce(e.answers, t.s.full.n, u.earlier, t.s.good, u.held);
    }
  }

  /**
   * Over every run of ticks, cancels, settles, scoped merges, polls and undisturbed landings: a listed
   * pull request with an override shows it, and a settled one stays off the board.
   */
  lemma {:induction false} WhatWasSetHereStays(events: seq<Event>)
    requires Admitted(events)
    ensures Right(Run(events).s) && TakenRight(Run(events))
  {
    hide Next;
    if events == [] {
      assert forall id :: Count([], id) == 0;
    } else {
      WhatWasSetHereStays(events[..|events| - 1]);
      RunKnown(events[..|events| - 1]);
      NextRight(Run(events[..|events| - 1]), events[|events| - 1]);
    }
  }

  // ---- What ends an override ----

  /** The number of the fetch a step merges, and whether it read `id` or covers it. */
  function Number(s: State, e: Event): nat {
    match e
    case RepoLands(k, _, _, _, _) => if k in s.reading then s.reading[k] else 0
    case PollLands(n, _, _, _, _) => n
    case FullLands => if s.full.Idle? then 0 else s.full.n
    case _ => 0
  }

  predicate CoversId(s: State, e: Event, id: Id) {
    match e
    case RepoLands(k, _, _, _, _) => id.home == k
    case PollLands(_, _, _, order, _) => id.home in order
    case FullLands => s.full.Ready? && id.home.forge in s.full.reached
    case _ => false
  }

  predicate ReadsId(s: State, e: Event, id: Id) {
    match e
    case RepoLands(k, _, _, _, _) => id.home == k
    case PollLands(_, pulls, closed, _, _) => id in pulls || id in closed
    case FullLands => s.full.Ready? && id in s.full.read
    case _ => false
  }

  ghost predicate Ended(b: Board, after: Board, id: Id) {
    id in b.overrides && (id !in after.overrides || after.overrides[id] != b.overrides[id])
  }

  lemma AlikeEndsNothing(b: Board, after: Board, id: Id)
    requires Alike(after, b, id.home)
    ensures !Ended(b, after, id)
  {
    assert AgreeOn(after.overrides, b.overrides, id.home);
  }

  lemma MergeEnds(b: Board, after: Board, n: nat, shares: seq<Share>, oldest: int, id: Id)
    requires Merges(b, after, n, shares, oldest) && Ended(b, after, id)
    ensures exists i | 0 <= i < |shares| ::
              && shares[i].repo == id.home && id !in after.overrides
              && Retires(n, b.overrides[id].after, Listed(At(after.snap.prs, id.home)), Repo(id.home), ReadOf(shares[i].source), id)
  {
    assert !Alike(after, b, id.home) by {
      if Alike(after, b, id.home) {
        AlikeEndsNothing(b, after, id);
      }
    }
    var i :| 0 <= i < |shares| && ReplacedBy(b, after, n, shares[i], oldest, id.home);
    assert AgreeOn(after.overrides,
                   Unretired(b.overrides, n, Listed(At(after.snap.prs, id.home)), Repo(id.home), ReadOf(shares[i].source)), id.home);
  }

  lemma ListedAt(rows: seq<Row>, id: Id)
    ensures id in Listed(At(rows, id.home)) <==> id in Listed(rows)
  {
    FilterHas(rows, Of(id.home));
  }

  /** What a step must be to end an override: a later fetch that covers the pull request and settles it. */
  ghost predicate LaterFetch(s: State, e: Event, after: Board, id: Id) {
    && id in s.board.overrides && s.board.overrides[id].after < Number(s, e) && CoversId(s, e, id)
    && (ReadsId(s, e, id) || id !in Listed(after.snap.prs))
  }

  lemma OneShareEnds(b: Board, n: nat, share: Share, oldest: int, id: Id)
    requires Fits(share)
    ensures Ended(b, MergedFrom(b, n, [share], oldest), id) ==> b.overrides[id].after < n && id.home == share.repo
  {
    if Ended(b, MergedFrom(b, n, [share], oldest), id) {
      MergedFromMerges(b, n, [share], oldest);
      MergeEnds(b, MergedFrom(b, n, [share], oldest), n, [share], oldest, id);
    }
  }

  lemma PollEndsBy(s: State, e: Event, after: Board, shares: seq<Share>, id: Id)
    requires e.PollLands? && shares == PollShares(e.n, e.pulls, e.closed, e.order)
    requires Merges(s.board, after, e.n, shares, e.oldest) && Ended(s.board, after, id)
    ensures LaterFetch(s, e, after, id)
  {
    MergeEnds(s.board, after, e.n, shares, e.oldest, id);
    ListedAt(after.snap.prs, id);
  }

  lemma LandingEnds(s: State, id: Id)
    requires Ended(s.board, OnFullLands(s).board, id)
    ensures LaterFetch(s, FullLands, OnFullLands(s).board, id)
  {
    BoxedListed(KeepNewer(s.full.snap, s.board.snap, Newer(s.board.scoped, s.full.n)).prs,
                Boxed(s.board.overrides, s.full.n, Forges(s.full.reached), Only(s.full.read)));
  }

  lemma RepoEnds(s: State, e: Event, id: Id)
    requires e.RepoLands?
    ensures Ended(s.board, OnRepoLands(s, e.repo, e.prs, e.issues, e.whole, e.oldest).board, id) ==>
              e.repo in s.reading && s.board.overrides[id].after < s.reading[e.repo] && id.home == e.repo
  {
    if Ended(s.board, OnRepoLands(s, e.repo, e.prs, e.issues, e.whole, e.oldest).board, id) {
      var share := RepoShare(e.repo, s.reading[e.repo], e.prs, e.issues, e.whole);
      assert Fits(share);
      OneShareEnds(s.board, s.reading[e.repo], share, e.oldest, id);
    }
  }

  lemma PollEnds(s: State, e: Event, id: Id)
    requires e.PollLands?
    ensures var after := OnPollLands(s, e.n, e.pulls, e.closed, e.order, e.oldest).board;
            Ended(s.board, after, id) ==> LaterFetch(s, e, after, id)
  {
    var after := OnPollLands(s, e.n, e.pulls, e.closed, e.order, e.oldest).board;
    if Ended(s.board, after, id) {
      var shares := PollShares(e.n, e.pulls, e.closed, e.order);
      MergedFromMerges(s.board, e.n, shares, e.oldest);
      PollEndsBy(s, e, after, shares, id);
    }
  }

  /**
   * Only a fetch numbered after the tick ends an override, and only one that covers the pull request
   * and either read it or no longer lists it; the one other end is a new tick or cancel.
   */
  lemma OnlyALaterFetchEnds(s: State, e: Event, id: Id)
    ensures Ended(s.board, Step(s, e).board, id) ==> (e.Ticks? && e.id == id) || LaterFetch(s, e, Step(s, e).board, id)
  {
    if Ended(s.board, Step(s, e).board, id) {
      match e
      case RepoLands(_, _, _, _, _) => RepoEnds(s, e, id);
      case PollLands(_, _, _, _, _) => PollEnds(s, e, id);
      case FullLands => LandingEnds(s, id);
      case _ =>
    }
  }

  // ---- And what a later fetch does end ----

  lemma ReplacedEnds(b: Board, after: Board, n: nat, share: Share, oldest: int, id: Id)
    requires Replaces(b, after, n, share, oldest) && id.home == share.repo
    ensures id in after.overrides <==>
              id in b.overrides && (n <= b.overrides[id].after || (id in Listed(after.snap.prs) && !Reads(ReadOf(share.source), id)))
    ensures id in after.settled <==> id in b.settled && oldest <= b.settled[id] && id in Listed(SharePrs(b.snap, share))
  {
    ListedAt(after.snap.prs, id);
    assert AgreeOn(after.overrides,
                   Unretired(b.overrides, n, Listed(At(after.snap.prs, share.repo)), Repo(share.repo), ReadOf(share.source)), share.repo);
    assert AgreeOn(after.settled, Held(b.settled, Listed(SharePrs(b.snap, share)), Some(share.repo), oldest), share.repo);
  }

  /**
   * A scoped fetch settles its repository's marks: an override is over exactly when the fetch began
   * after it was set, and a settled pull request stays held exactly while the fetch lists it within its
   * window.
   */
  lemma AScopedFetchSettles(b: Board, n: nat, share: Share, oldest: int, id: Id)
    requires Fits(share) && share.source.Fetched? && id.home == share.repo
    ensures var after := MergedFrom(b, n, [share], oldest);
            && (id in after.overrides <==> id in b.overrides && n <= b.overrides[id].after)
            && (id in after.settled <==> id in b.settled && oldest <= b.settled[id] && id in Listed(share.source.prs))
  {
    NamedReplaced(b, n, [share], oldest, 0);
    ReplacedEnds(b, MergedFrom(b, n, [share], oldest), n, share, oldest, id);
  }

  /** A landing full refresh ends an override exactly when it began after it was set and read the row, or lists it no more. */
  lemma ALandingSettles(b: Board, n: nat, snap: Snapshot, reached: set<Forge>, read: set<Id>, id: Id)
    ensures var after := Landed(b, n, snap, reached, read);
            id in after.overrides <==>
              id in b.overrides
              && (n <= b.overrides[id].after || id.home.forge !in reached || (id in Listed(after.snap.prs) && id !in read))
  {
    BoxedListed(KeepNewer(snap, b.snap, Newer(b.scoped, n)).prs, Boxed(b.overrides, n, Forges(reached), Only(read)));
  }
}
