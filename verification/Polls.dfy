/** What a merge leaves of one repository, said of the rows themselves. */
module Polls {
  import opened Prelude
  import opened Seqs
  import opened Rows
  import opened Merge

  /** A settled mark that keeps its pull request off the board. */
  predicate HoldsOff(b: Board, oldest: int, id: Id) {
    id in b.settled && oldest <= b.settled[id]
  }

  /** The box fetch `n` leaves on a row it read: one set here since it began, or the one it read. */
  function BoxAfter(b: Board, n: nat, r: Row): bool {
    if r.id in b.overrides && n <= b.overrides[r.id].after then b.overrides[r.id].ticked else r.box
  }

  // ---- Rows counted ----

  lemma CountOf(rows: seq<Row>, x: Row)
    ensures multiset(At(rows, x.id.home))[x] == multiset(rows)[x]
  {
    FilterCount(rows, Of(x.id.home), x);
  }

  lemma SameCount(xs: seq<Row>, ys: seq<Row>, x: Row)
    requires Same(xs, ys)
    ensures multiset(xs)[x] == multiset(ys)[x]
  {
  }

  /** A map that leaves `x` alone, and makes no other row into it, leaves as many of it. */
  lemma {:induction false} MapCount(rows: seq<Row>, f: Row -> Row, x: Row)
    requires forall r | r in rows :: f(r) == x <==> r == x
    ensures multiset(Map(rows, f))[x] == multiset(rows)[x]
  {
    if rows != [] {
      var most, last := rows[..|rows| - 1], rows[|rows| - 1];
      MapCount(most, f, x);
      SplitLast(rows);
      SplitLast(Map(rows, f));
      assert Map(rows, f)[..|rows| - 1] == Map(most, f);
    }
  }

  /** What a filter leaves of a row. */
  lemma FilteredCount(rows: seq<Row>, keep: Row -> bool, x: Row)
    ensures multiset(Filter(rows, keep))[x] == if keep(x) then multiset(rows)[x] else 0
  {
    FilterCount(rows, keep, x);
  }

  // ---- A poll ----

  /** A row of a polled repository once the poll is merged. */
  function AfterPoll(b: Board, n: nat, pulls: map<Id, Row>): Row -> Row {
    (r: Row) => if r.id in pulls then pulls[r.id].(box := BoxAfter(b, n, pulls[r.id])) else r
  }

  /** The rows a poll leaves listed. */
  function StaysPolled(b: Board, oldest: int, closed: set<Id>): Row -> bool {
    (r: Row) => r.id !in closed && !HoldsOff(b, oldest, r.id)
  }

  lemma SameFilterMap(rows: seq<Row>, closed: set<Id>, held: set<Id>, pulls: map<Id, Row>, box: Row -> Row,
                      keep: Row -> bool, after: Row -> Row)
    requires forall id | id in pulls :: pulls[id].id == id
    requires forall r :: keep(r) ==> r.id !in closed
    requires forall r | r in rows && r.id !in closed :: keep(r) <==> r.id !in held
    requires forall r | r in rows && keep(r) :: after(r) == box(Fresh(pulls)(r))
    ensures Map(Filter(Patched(rows, pulls, closed), NotIn(held)), box) == Map(Filter(rows, keep), after)
  {
    var open, kept := Filter(rows, NotIn(closed)), Filter(rows, keep);
    FilterMap(open, NotIn(held), Fresh(pulls));
    FilterHas(rows, NotIn(closed));
    FilterAgrees(open, NotIn(held), keep);
    FilterTwice(rows, NotIn(closed), keep);
    FilterHas(rows, keep);
    forall m | 0 <= m < |kept| ensures box(Fresh(pulls)(kept[m])) == after(kept[m]) {
      assert kept[m] in rows && keep(kept[m]);
    }
    assert Map(Map(kept, Fresh(pulls)), box) == Map(kept, after);
  }

  lemma PolledRows(b: Board, n: nat, share: Share, oldest: int)
    requires share.source.Polled? && Fits(share)
    ensures NewRows(b, share.repo, n, SharePrs(b.snap, share), ReadOf(share.source), oldest)
         == Map(Filter(At(b.snap.prs, share.repo), StaysPolled(b, oldest, share.source.closed)), AfterPoll(b, n, share.source.pulls))
  {
    var rows, pulls, closed := At(b.snap.prs, share.repo), share.source.pulls, share.source.closed;
    var prs := SharePrs(b.snap, share);
    var held := Held(b.settled, Listed(prs), Some(share.repo), oldest);
    FilterHas(b.snap.prs, Of(share.repo));
    forall r | r in rows ensures StaysPolled(b, oldest, closed)(r) <==> r.id !in closed && r.id !in held {
      if r.id !in closed {
        PatchedLists(rows, pulls, closed, r);
      }
    }
    SameFilterMap(rows, closed, held.Keys, pulls, Boxed(b.overrides, n, Repo(share.repo), ReadOf(share.source)),
                  StaysPolled(b, oldest, closed), AfterPoll(b, n, pulls));
  }

  lemma PatchedLists(rows: seq<Row>, pulls: map<Id, Row>, closed: set<Id>, r: Row)
    requires r in rows && r.id !in closed && forall id | id in pulls :: pulls[id].id == id
    ensures r.id in Listed(Patched(rows, pulls, closed))
  {
    var kept := Filter(rows, NotIn(closed));
    FilterHas(rows, NotIn(closed));
    var i :| 0 <= i < |kept| && kept[i] == r;
    assert Patched(rows, pulls, closed)[i] in Patched(rows, pulls, closed);
  }

  /** Nothing newer than fetch `n` was merged into `k`. */
  predicate NotNewer(b: Board, k: RepoKey, n: nat) {
    k in b.scoped ==> b.scoped[k] <= n
  }

  /**
   * What a poll leaves of a repository: it lists a pull request exactly when it did and that was neither
   * closed nor settled; one the poll answered reads as answered, its box put right; every other row is
   * as it was, and so are the issues; and the repository carries the poll's number.
   */
  ghost predicate PollLanded(b: Board, after: Board, n: nat, pulls: map<Id, Row>, closed: set<Id>, oldest: int, k: RepoKey) {
    && k in after.scoped && after.scoped[k] == n
    && (forall id: Id | id.home == k ::
          id in Listed(after.snap.prs) <==> id in Listed(b.snap.prs) && id !in closed && !HoldsOff(b, oldest, id))
    && (forall r | r in after.snap.prs && r.id.home == k && r.id in pulls ::
          r == pulls[r.id].(box := BoxAfter(b, n, pulls[r.id])))
    && (forall x: Row | x.id.home == k && x.id !in pulls ::
          multiset(after.snap.prs)[x] == if x.id in closed || HoldsOff(b, oldest, x.id) then 0 else multiset(b.snap.prs)[x])
    && Same(At(after.snap.issues, k), At(b.snap.issues, k))
  }

  /** A poll lands wherever no newer merge has overtaken it, and changes nothing where one has. */
  lemma APollLands(b: Board, n: nat, shares: seq<Share>, oldest: int, i: nat)
    requires AllFit(shares) && OneEach(shares) && i < |shares| && shares[i].source.Polled?
    ensures var after, k := MergedFrom(b, n, shares, oldest), shares[i].repo;
      if NotNewer(b, k, n) then PollLanded(b, after, n, shares[i].source.pulls, shares[i].source.closed, oldest, k) else Alike(after, b, k)
  {
    if NotNewer(b, shares[i].repo, n) {
      AFreshPollLands(b, n, shares, oldest, i);
    } else {
      OvertakenPollSkipped(b, n, shares, oldest, i);
    }
  }

  lemma AFreshPollLands(b: Board, n: nat, shares: seq<Share>, oldest: int, i: nat)
    requires AllFit(shares) && OneEach(shares) && i < |shares| && shares[i].source.Polled?
    requires NotNewer(b, shares[i].repo, n)
    ensures var share := shares[i];
      PollLanded(b, MergedFrom(b, n, shares, oldest), n, share.source.pulls, share.source.closed, oldest, share.repo)
  {
    hide NewRows, SharePrs, Boxed, Held, MergedFrom, ReadOf, Fits, Skipped;
    var after, share := MergedFrom(b, n, shares, oldest), shares[i];
    var k, pulls, closed := share.repo, share.source.pulls, share.source.closed;
    NotSkipped(b, share, n);
    NamedReplaced(b, n, shares, oldest, i);
    PolledRows(b, n, share, oldest);
    PullsFit(share);
    PolledIssues(b, share);
    forall id: Id | id.home == k
      ensures id in Listed(after.snap.prs) <==> id in Listed(b.snap.prs) && id !in closed && !HoldsOff(b, oldest, id)
    {
      PollLists(b, n, pulls, closed, oldest, k, after.snap.prs, id);
    }
    forall r | r in after.snap.prs && r.id.home == k && r.id in pulls
      ensures r == pulls[r.id].(box := BoxAfter(b, n, pulls[r.id]))
    {
      PollAnswers(b, n, pulls, closed, oldest, k, after.snap.prs, r);
    }
    forall x: Row | x.id.home == k && x.id !in pulls
      ensures multiset(after.snap.prs)[x] == if x.id in closed || HoldsOff(b, oldest, x.id) then 0 else multiset(b.snap.prs)[x]
    {
      PollKeeps(b, n, pulls, closed, oldest, k, after.snap.prs, x);
    }
  }

  lemma PullsFit(share: Share)
    requires share.source.Polled? && Fits(share)
    ensures forall id | id in share.source.pulls :: share.source.pulls[id].id == id
  {
  }

  lemma PolledIssues(b: Board, share: Share)
    requires share.source.Polled?
    ensures ShareIssues(b.snap, share) == At(b.snap.issues, share.repo)
  {
  }

  lemma NotSkipped(b: Board, share: Share, n: nat)
    requires NotNewer(b, share.repo, n)
    ensures !Skipped(b.scoped, share, n)
  {
  }

  lemma HasAt(rows: seq<Row>, r: Row)
    ensures r in At(rows, r.id.home) <==> r in rows
  {
    FilterHas(rows, Of(r.id.home));
  }

  lemma MappedHas(rows: seq<Row>, keep: Row -> bool, f: Row -> Row, left: seq<Row>)
    requires Same(left, Map(Filter(rows, keep), f))
    ensures forall r | r in left :: exists q | q in rows && keep(q) :: f(q) == r
    ensures forall q | q in rows && keep(q) :: f(q) in left
  {
    var kept := Filter(rows, keep);
    FilterHas(rows, keep);
    SameListed(left, Map(kept, f));
    forall r | r in left ensures exists q | q in rows && keep(q) :: f(q) == r {
      var j :| 0 <= j < |kept| && Map(kept, f)[j] == r;
      assert kept[j] in rows;
    }
    forall q | q in rows && keep(q) ensures f(q) in left {
      var j :| 0 <= j < |kept| && kept[j] == q;
      assert Map(kept, f)[j] in Map(kept, f);
    }
  }

  lemma PollLists(b: Board, n: nat, pulls: map<Id, Row>, closed: set<Id>, oldest: int, k: RepoKey, prs: seq<Row>, id: Id)
    requires forall id | id in pulls :: pulls[id].id == id
    requires Same(At(prs, k), Map(Filter(At(b.snap.prs, k), StaysPolled(b, oldest, closed)), AfterPoll(b, n, pulls)))
    requires id.home == k
    ensures id in Listed(prs) <==> id in Listed(b.snap.prs) && id !in closed && !HoldsOff(b, oldest, id)
  {
    var rows, keep, f := At(b.snap.prs, k), StaysPolled(b, oldest, closed), AfterPoll(b, n, pulls);
    MappedHas(rows, keep, f, At(prs, k));
    FilterHas(prs, Of(k));
    FilterHas(b.snap.prs, Of(k));
    if id in Listed(prs) {
      var r :| r in prs && r.id == id;
      assert r in At(prs, k);
      var q :| q in rows && keep(q) && f(q) == r;
      assert q in b.snap.prs && q.id == id;
    }
    if id in Listed(b.snap.prs) && id !in closed && !HoldsOff(b, oldest, id) {
      var q :| q in b.snap.prs && q.id == id;
      assert q in rows && keep(q);
      assert f(q) in At(prs, k) && f(q).id == id;
    }
  }

  lemma PollAnswers(b: Board, n: nat, pulls: map<Id, Row>, closed: set<Id>, oldest: int, k: RepoKey, prs: seq<Row>, r: Row)
    requires forall id | id in pulls :: pulls[id].id == id
    requires Same(At(prs, k), Map(Filter(At(b.snap.prs, k), StaysPolled(b, oldest, closed)), AfterPoll(b, n, pulls)))
    requires r in prs && r.id.home == k && r.id in pulls
    ensures r == pulls[r.id].(box := BoxAfter(b, n, pulls[r.id]))
  {
    MappedHas(At(b.snap.prs, k), StaysPolled(b, oldest, closed), AfterPoll(b, n, pulls), At(prs, k));
    HasAt(prs, r);
  }

  lemma PollKeeps(b: Board, n: nat, pulls: map<Id, Row>, closed: set<Id>, oldest: int, k: RepoKey, prs: seq<Row>, x: Row)
    requires forall id | id in pulls :: pulls[id].id == id
    requires Same(At(prs, k), Map(Filter(At(b.snap.prs, k), StaysPolled(b, oldest, closed)), AfterPoll(b, n, pulls)))
    requires x.id.home == k && x.id !in pulls
    ensures multiset(prs)[x] == if x.id in closed || HoldsOff(b, oldest, x.id) then 0 else multiset(b.snap.prs)[x]
  {
    var rows, keep, f := At(b.snap.prs, k), StaysPolled(b, oldest, closed), AfterPoll(b, n, pulls);
    CountOf(prs, x);
    SameCount(At(prs, k), Map(Filter(rows, keep), f), x);
    MapCount(Filter(rows, keep), f, x);
    FilteredCount(rows, keep, x);
    CountOf(b.snap.prs, x);
  }

  // ---- A fetch ----

  /** A row as a merge of fetch `n` leaves it. */
  function AfterFetch(b: Board, n: nat): Row -> Row {
    (r: Row) => r.(box := BoxAfter(b, n, r))
  }

  function StaysFetched(b: Board, oldest: int): Row -> bool {
    (r: Row) => !HoldsOff(b, oldest, r.id)
  }

  /**
   * A scoped fetch lands, whatever was merged before: the repository holds exactly the pull requests it
   * read less the settled ones, boxes put right, and exactly the issues it read.
   */
  lemma AFetchLands(b: Board, n: nat, shares: seq<Share>, oldest: int, i: nat)
    requires AllFit(shares) && OneEach(shares) && i < |shares| && shares[i].source.Fetched?
    ensures var after, k, source := MergedFrom(b, n, shares, oldest), shares[i].repo, shares[i].source;
      && k in after.scoped && after.scoped[k] == n
      && Same(At(after.snap.prs, k), Map(Filter(source.prs, StaysFetched(b, oldest)), AfterFetch(b, n)))
      && Same(At(after.snap.issues, k), source.issues)
  {
    var share := shares[i];
    NamedReplaced(b, n, shares, oldest, i);
    var held := Held(b.settled, Listed(share.source.prs), Some(share.repo), oldest);
    var kept, box := Filter(share.source.prs, NotIn(held.Keys)), Boxed(b.overrides, n, Repo(share.repo), All);
    FilterHas(share.source.prs, NotIn(held.Keys));
    FilterAgrees(share.source.prs, NotIn(held.Keys), StaysFetched(b, oldest));
    forall j | 0 <= j < |kept| ensures box(kept[j]) == AfterFetch(b, n)(kept[j]) {
      assert kept[j] in share.source.prs;
    }
    assert Map(kept, box) == Map(kept, AfterFetch(b, n));
  }

  /** A stale mark clears exactly where a fetch read the whole repository, and no row loses its place. */
  lemma StaleMarksClear(b: Board, n: nat, shares: seq<Share>, oldest: int, i: nat)
    requires i < |b.snap.repos|
    ensures var was, repos := b.snap.repos[i], MergedFrom(b, n, shares, oldest).snap.repos;
      && |repos| == |b.snap.repos| && repos[i].home == was.home && repos[i].stamp == was.stamp
      && (repos[i].stale <==> was.stale && !exists share ::
            share in shares && share.repo == was.home && share.source.Fetched? && share.source.whole)
  {
    var k := b.snap.repos[i].home;
    assert k in Whole(shares) <==> exists share ::
      share in shares && share.repo == k && share.source.Fetched? && share.source.whole;
  }
}
