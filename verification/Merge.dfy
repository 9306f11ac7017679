/** Merging one repository's rows, or several repositories' at once, into the snapshot. */
module Merge {
  import opened Prelude
  import opened Seqs
  import opened Rows

  /** A rebase box state set here, and the newest fetch that had started by then. */
  datatype Override = Override(ticked: bool, after: nat)

  /** What a fetch answered for: one repository, or every repository of some forges. */
  datatype Cover = Repo(repo: RepoKey) | Forges(forges: set<Forge>)

  /** Which pull requests a fetch read; the others were carried over. */
  datatype ReadRows = All | Only(ids: set<Id>)

  /** The snapshot and the three tables every merge consults. */
  datatype Board = Board(
    snap: Snapshot,
    scoped: map<RepoKey, nat>,
    settled: map<Id, int>,
    overrides: map<Id, Override>)

  predicate Covers(cover: Cover, k: RepoKey) {
    match cover
    case Repo(repo) => k == repo
    case Forges(forges) => k.forge in forges
  }

  predicate Reads(read: ReadRows, id: Id) {
    read.All? || id in read.ids
  }

  // Settled pull requests

  predicate InScope(scope: Option<RepoKey>, id: Id) {
    scope.None? || id.home == scope.value
  }

  /**
   * The marks still held once a fetch of `scope` listed `listed`: one set before `oldest` is past its
   * window. A mark outside the scope stays.
   */
  function Held(settled: map<Id, int>, listed: set<Id>, scope: Option<RepoKey>, oldest: int): map<Id, int> {
    map id | id in settled && (InScope(scope, id) ==> oldest <= settled[id] && id in listed) :: settled[id]
  }

  // Rebase boxes

  /** A row as a fetch numbered `n` leaves it: an override it may not undo is put back. */
  function Boxed(overrides: map<Id, Override>, n: nat, cover: Cover, read: ReadRows): Row -> Row {
    (r: Row) =>
      if r.id in overrides && Covers(cover, r.id.home) && Reads(read, r.id) && n <= overrides[r.id].after
      then r.(box := overrides[r.id].ticked)
      else r
  }

  /** Whether fetch `n` retires the override of `id`, set when `after` was the newest fetch. */
  predicate Retires(n: nat, after: nat, listed: set<Id>, cover: Cover, read: ReadRows, id: Id) {
    after < n && Covers(cover, id.home) && (id in listed ==> Reads(read, id))
  }

  function Unretired(overrides: map<Id, Override>, n: nat, listed: set<Id>, cover: Cover, read: ReadRows): map<Id, Override> {
    map id | id in overrides && !Retires(n, overrides[id].after, listed, cover, read, id) :: overrides[id]
  }

  // One repository

  function Unsettled(prs: seq<Row>, held: map<Id, int>): seq<Row> {
    Filter(prs, NotIn(held.Keys))
  }

  /** mergedRepo: `k`'s own rows replaced by `prs` and `issues`, which fetch `n` answered. */
  function MergedRepo(b: Board, k: RepoKey, n: nat, prs: seq<Row>, issues: seq<Row>, read: ReadRows, oldest: int): Board {
    var held := Held(b.settled, Listed(prs), Some(k), oldest);
    var rows := Filter(b.snap.prs, NotOf(k)) + Unsettled(prs, held);
    Board(
      Snapshot(
        SortByRecency(Map(rows, Boxed(b.overrides, n, Repo(k), read))),
        SortByRecency(Filter(b.snap.issues, NotOf(k)) + issues),
        b.snap.repos),
      b.scoped[k := n],
      held,
      Unretired(b.overrides, n, Listed(rows), Repo(k), read))
  }

  /** The pull requests `k` is left with: the new ones, less the settled, each with its box put right. */
  function NewRows(b: Board, k: RepoKey, n: nat, prs: seq<Row>, read: ReadRows, oldest: int): seq<Row> {
    Map(Unsettled(prs, Held(b.settled, Listed(prs), Some(k), oldest)), Boxed(b.overrides, n, Repo(k), read))
  }

  // Several repositories

  /**
   * Where a repository's new rows come from: a fetch of it, or a poll of some of its pull requests.
   * `whole` is repoRows.fetched: the fetch read everything a stale mark is about.
   */
  datatype Source =
    | Fetched(prs: seq<Row>, issues: seq<Row>, whole: bool)
    | Polled(pulls: map<Id, Row>, closed: set<Id>)

  /** One repository's share of a merge. */
  datatype Share = Share(repo: RepoKey, source: Source)

  /** A fetch read every row it brings; a poll those it was told of. */
  function ReadOf(source: Source): ReadRows {
    match source
    case Fetched(_, _, _) => All
    case Polled(pulls, closed) => Only(pulls.Keys + closed)
  }

  predicate Fits(share: Share) {
    match share.source
    case Fetched(prs, issues, _) => AllOf(prs, share.repo) && AllOf(issues, share.repo)
    case Polled(pulls, _) => forall id | id in pulls :: pulls[id].id == id
  }

  function Fresh(pulls: map<Id, Row>): Row -> Row {
    (r: Row) => if r.id in pulls then pulls[r.id] else r
  }

  /** repoPullRequestsAfter: closed ones dropped, answered ones swapped in, the rest as they were. */
  function Patched(rows: seq<Row>, pulls: map<Id, Row>, closed: set<Id>): seq<Row> {
    Map(Filter(rows, NotIn(closed)), Fresh(pulls))
  }

  /** A poll's share is dropped once a newer fetch has been merged. */
  predicate Skipped(scoped: map<RepoKey, nat>, share: Share, n: nat) {
    share.source.Polled? && share.repo in scoped && scoped[share.repo] > n
  }

  function SharePrs(snap: Snapshot, share: Share): seq<Row> {
    match share.source
    case Fetched(prs, _, _) => prs
    case Polled(pulls, closed) => Patched(At(snap.prs, share.repo), pulls, closed)
  }

  function ShareIssues(snap: Snapshot, share: Share): seq<Row> {
    match share.source
    case Fetched(_, issues, _) => issues
    case Polled(_, _) => At(snap.issues, share.repo)
  }

  function MergedShare(b: Board, n: nat, share: Share, oldest: int): Board {
    if Skipped(b.scoped, share, n) then b
    else MergedRepo(b, share.repo, n, SharePrs(b.snap, share), ShareIssues(b.snap, share), ReadOf(share.source), oldest)
  }

  function MergedShares(b: Board, n: nat, shares: seq<Share>, oldest: int): Board {
    if shares == [] then b
    else MergedShare(MergedShares(b, n, shares[..|shares| - 1], oldest), n, shares[|shares| - 1], oldest)
  }

  /** withoutStale. */
  function Refreshed(fetched: set<RepoKey>): RepoRow -> RepoRow {
    (r: RepoRow) => if r.home in fetched then r.(stale := false) else r
  }

  function Whole(shares: seq<Share>): set<RepoKey> {
    set share | share in shares && share.source.Fetched? && share.source.whole :: share.repo
  }

  /** mergeReposFrom. */
  function MergedFrom(b: Board, n: nat, shares: seq<Share>, oldest: int): Board {
    var merged := MergedShares(b, n, shares, oldest);
    merged.(snap := merged.snap.(repos := Map(b.snap.repos, Refreshed(Whole(shares)))))
  }

  // ---- What one merge does to each repository ----

  ghost predicate AgreeOn<V>(m: map<Id, V>, m': map<Id, V>, k: RepoKey) {
    forall id: Id | id.home == k :: (id in m <==> id in m') && (id in m ==> m[id] == m'[id])
  }

  /** Two boards hold the same about `k`: the same rows in some order, the same marks and numbers. */
  ghost predicate Alike(b: Board, c: Board, k: RepoKey) {
    && Same(At(b.snap.prs, k), At(c.snap.prs, k))
    && Same(At(b.snap.issues, k), At(c.snap.issues, k))
    && (k in b.scoped <==> k in c.scoped)
    && (k in b.scoped ==> b.scoped[k] == c.scoped[k])
    && AgreeOn(b.settled, c.settled, k)
    && AgreeOn(b.overrides, c.overrides, k)
  }

  lemma AtOthers(current: seq<Row>, replacing: seq<Row>, k: RepoKey, j: RepoKey)
    requires j != k && AllOf(replacing, k)
    ensures At(Filter(current, NotOf(k)) + replacing, j) == At(current, j)
  {
    FilterConcat(Filter(current, NotOf(k)), replacing, Of(j));
    FilterTwice(current, NotOf(k), Of(j));
    FilterNone(replacing, Of(j));
  }

  lemma AtMerged(current: seq<Row>, replacing: seq<Row>, k: RepoKey)
    requires AllOf(replacing, k)
    ensures At(Filter(current, NotOf(k)) + replacing, k) == replacing
  {
    FilterConcat(Filter(current, NotOf(k)), replacing, Of(k));
    FilterHas(current, NotOf(k));
    FilterNone(Filter(current, NotOf(k)), Of(k));
    FilterAll(replacing, Of(k));
  }

  lemma FilterKeepsAllOf(rows: seq<Row>, keep: Row -> bool, k: RepoKey)
    requires AllOf(rows, k)
    ensures AllOf(Filter(rows, keep), k)
  {
    FilterHas(rows, keep);
  }

  lemma BoxedAt(rows: seq<Row>, f: Row -> Row, k: RepoKey)
    requires forall r: Row :: f(r).id == r.id
    ensures At(Map(rows, f), k) == Map(At(rows, k), f)
  {
    FilterMap(rows, Of(k), f);
  }

  lemma MergedPrs(b: Board, k: RepoKey, n: nat, prs: seq<Row>, issues: seq<Row>, read: ReadRows, oldest: int, j: RepoKey)
    requires AllOf(prs, k)
    ensures Same(At(MergedRepo(b, k, n, prs, issues, read, oldest).snap.prs, j),
                 if j == k then NewRows(b, k, n, prs, read, oldest) else At(b.snap.prs, j))
  {
    var replacing := Unsettled(prs, Held(b.settled, Listed(prs), Some(k), oldest));
    var rows, f := Filter(b.snap.prs, NotOf(k)) + replacing, Boxed(b.overrides, n, Repo(k), read);
    FilterKeepsAllOf(prs, NotIn(Held(b.settled, Listed(prs), Some(k), oldest).Keys), k);
    SortAt(Map(rows, f), j);
    BoxedAt(rows, f, j);
    if j == k {
      AtMerged(b.snap.prs, replacing, k);
    } else {
      AtOthers(b.snap.prs, replacing, k, j);
      FilterHas(b.snap.prs, Of(j));
      MapId(At(b.snap.prs, j), f);
    }
  }

  lemma MergedIssues(b: Board, k: RepoKey, n: nat, prs: seq<Row>, issues: seq<Row>, read: ReadRows, oldest: int, j: RepoKey)
    requires AllOf(issues, k)
    ensures Same(At(MergedRepo(b, k, n, prs, issues, read, oldest).snap.issues, j),
                 if j == k then issues else At(b.snap.issues, j))
  {
    SortAt(Filter(b.snap.issues, NotOf(k)) + issues, j);
    if j == k {
      AtMerged(b.snap.issues, issues, k);
    } else {
      AtOthers(b.snap.issues, issues, k, j);
    }
  }

  lemma ListedHas(rows: seq<Row>, replacing: seq<Row>, k: RepoKey, id: Id)
    requires AllOf(replacing, k)
    ensures id.home == k ==> (id in Listed(Filter(rows, NotOf(k)) + replacing) <==> id in Listed(replacing))
    ensures id.home != k ==> (id in Listed(Filter(rows, NotOf(k)) + replacing) <==> id in Listed(rows))
  {
    FilterHas(rows, NotOf(k));
  }

  /** Merging one repository leaves what the board holds about any other as it was. */
  lemma MergedElsewhere(b: Board, k: RepoKey, n: nat, prs: seq<Row>, issues: seq<Row>, read: ReadRows, oldest: int, j: RepoKey)
    requires AllOf(prs, k) && AllOf(issues, k) && j != k
    ensures Alike(MergedRepo(b, k, n, prs, issues, read, oldest), b, j)
  {
    MergedPrs(b, k, n, prs, issues, read, oldest, j);
    MergedIssues(b, k, n, prs, issues, read, oldest, j);
  }

  lemma SameListed(xs: seq<Row>, ys: seq<Row>)
    requires Same(xs, ys)
    ensures Listed(xs) == Listed(ys)
    ensures forall r :: r in xs <==> r in ys
  {
    forall r ensures r in xs <==> r in ys {
      assert r in xs <==> r in multiset(xs);
      assert r in ys <==> r in multiset(ys);
    }
  }

  lemma UnsettledLocal(prs: seq<Row>, prs': seq<Row>, held: map<Id, int>, held': map<Id, int>, k: RepoKey)
    requires AllOf(prs, k) && AllOf(prs', k) && Same(prs, prs')
    requires AgreeOn(held, held', k)
    ensures Same(Unsettled(prs, held), Unsettled(prs', held'))
    ensures AllOf(Unsettled(prs, held), k) && AllOf(Unsettled(prs', held'), k)
  {
    FilterSame(prs, prs', NotIn(held.Keys));
    FilterAgrees(prs', NotIn(held.Keys), NotIn(held'.Keys));
    FilterKeepsAllOf(prs, NotIn(held.Keys), k);
    FilterKeepsAllOf(prs', NotIn(held'.Keys), k);
  }

  lemma BoxedLocal(rows: seq<Row>, rows': seq<Row>, o: map<Id, Override>, o': map<Id, Override>, n: nat, read: ReadRows, k: RepoKey)
    requires AllOf(rows', k) && Same(rows, rows') && AgreeOn(o, o', k)
    ensures Same(Map(rows, Boxed(o, n, Repo(k), read)), Map(rows', Boxed(o', n, Repo(k), read)))
  {
    MapSame(rows, rows', Boxed(o, n, Repo(k), read));
    assert Map(rows', Boxed(o, n, Repo(k), read)) == Map(rows', Boxed(o', n, Repo(k), read));
  }

  lemma UnretiredLocal(o: map<Id, Override>, o': map<Id, Override>, n: nat, listed: set<Id>, listed': set<Id>, read: ReadRows,
                       k: RepoKey)
    requires AgreeOn(o, o', k)
    requires forall id: Id | id.home == k :: id in listed <==> id in listed'
    ensures AgreeOn(Unretired(o, n, listed, Repo(k), read), Unretired(o', n, listed', Repo(k), read), k)
  {
  }

  /** What a merge makes of its repository depends on what the board held about that repository only. */
  lemma MergedLocal(b: Board, c: Board, k: RepoKey, n: nat, prs: seq<Row>, prs': seq<Row>,
                    issues: seq<Row>, issues': seq<Row>, read: ReadRows, oldest: int)
    requires Alike(b, c, k)
    requires AllOf(prs, k) && AllOf(prs', k) && Same(prs, prs')
    requires AllOf(issues, k) && AllOf(issues', k) && Same(issues, issues')
    ensures Alike(MergedRepo(b, k, n, prs, issues, read, oldest), MergedRepo(c, k, n, prs', issues', read, oldest), k)
  {
    SameListed(prs, prs');
    var held, held' := Held(b.settled, Listed(prs), Some(k), oldest), Held(c.settled, Listed(prs'), Some(k), oldest);
    assert AgreeOn(held, held', k);
    UnsettledLocal(prs, prs', held, held', k);
    BoxedLocal(Unsettled(prs, held), Unsettled(prs', held'), b.overrides, c.overrides, n, read, k);
    MergedPrs(b, k, n, prs, issues, read, oldest, k);
    MergedPrs(c, k, n, prs', issues', read, oldest, k);
    MergedIssues(b, k, n, prs, issues, read, oldest, k);
    MergedIssues(c, k, n, prs', issues', read, oldest, k);
    OverridesLocal(b, c, k, n, Unsettled(prs, held), Unsettled(prs', held'), read);
  }

  lemma OverridesLocal(b: Board, c: Board, k: RepoKey, n: nat, replacing: seq<Row>, replacing': seq<Row>, read: ReadRows)
    requires AgreeOn(b.overrides, c.overrides, k)
    requires AllOf(replacing, k) && AllOf(replacing', k) && Same(replacing, replacing')
    ensures AgreeOn(
      Unretired(b.overrides, n, Listed(Filter(b.snap.prs, NotOf(k)) + replacing), Repo(k), read),
      Unretired(c.overrides, n, Listed(Filter(c.snap.prs, NotOf(k)) + replacing'), Repo(k), read), k)
  {
    SameListed(replacing, replacing');
    var all, all' := Filter(b.snap.prs, NotOf(k)) + replacing, Filter(c.snap.prs, NotOf(k)) + replacing';
    forall id: Id | id.home == k ensures id in Listed(all) <==> id in Listed(all') {
      ListedHas(b.snap.prs, replacing, k, id);
      ListedHas(c.snap.prs, replacing', k, id);
    }
    UnretiredLocal(b.overrides, c.overrides, n, Listed(all), Listed(all'), read, k);
  }

  // ---- What one share does ----

  lemma SharesOwn(snap: Snapshot, share: Share)
    requires Fits(share)
    ensures AllOf(SharePrs(snap, share), share.repo) && AllOf(ShareIssues(snap, share), share.repo)
  {
    FilterHas(snap.prs, Of(share.repo));
    FilterHas(snap.issues, Of(share.repo));
    if share.source.Polled? {
      var rows := Filter(At(snap.prs, share.repo), NotIn(share.source.closed));
      FilterHas(At(snap.prs, share.repo), NotIn(share.source.closed));
      var patched := Map(rows, Fresh(share.source.pulls));
      assert forall i | 0 <= i < |patched| :: rows[i] in rows && patched[i].id == rows[i].id;
    }
  }

  lemma ShareElsewhere(b: Board, n: nat, share: Share, oldest: int, j: RepoKey)
    requires Fits(share) && j != share.repo
    ensures Alike(MergedShare(b, n, share, oldest), b, j)
  {
    if !Skipped(b.scoped, share, n) {
      SharesOwn(b.snap, share);
      MergedElsewhere(b, share.repo, n, SharePrs(b.snap, share), ShareIssues(b.snap, share), ReadOf(share.source), oldest, j);
    }
  }

  lemma ShareLocal(b: Board, c: Board, n: nat, share: Share, oldest: int)
    requires Fits(share) && Alike(b, c, share.repo)
    ensures Alike(MergedShare(b, n, share, oldest), MergedShare(c, n, share, oldest), share.repo)
  {
    var k := share.repo;
    if !Skipped(b.scoped, share, n) {
      SharesOwn(b.snap, share);
      SharesOwn(c.snap, share);
      if share.source.Polled? {
        FilterSame(At(b.snap.prs, k), At(c.snap.prs, k), NotIn(share.source.closed));
        MapSame(Filter(At(b.snap.prs, k), NotIn(share.source.closed)), Filter(At(c.snap.prs, k), NotIn(share.source.closed)),
                Fresh(share.source.pulls));
      }
      MergedLocal(b, c, k, n, SharePrs(b.snap, share), SharePrs(c.snap, share),
                  ShareIssues(b.snap, share), ShareIssues(c.snap, share), ReadOf(share.source), oldest);
    }
  }

  // ---- What several shares do ----

  predicate OneEach(shares: seq<Share>) {
    forall i, j | 0 <= i < j < |shares| :: shares[i].repo != shares[j].repo
  }

  predicate AllFit(shares: seq<Share>) {
    forall i | 0 <= i < |shares| :: Fits(shares[i])
  }

  predicate Names(shares: seq<Share>, j: RepoKey) {
    exists i | 0 <= i < |shares| :: shares[i].repo == j
  }

  lemma {:induction false} SharesElsewhere(b: Board, n: nat, shares: seq<Share>, oldest: int, j: RepoKey)
    requires AllFit(shares) && !Names(shares, j)
    ensures Alike(MergedShares(b, n, shares, oldest), b, j)
  {
    if shares != [] {
      var most, last := shares[..|shares| - 1], shares[|shares| - 1];
      assert !Names(most, j);
      SharesElsewhere(b, n, most, oldest, j);
      ShareElsewhere(MergedShares(b, n, most, oldest), n, last, oldest, j);
    }
  }

  /** In a merge of distinct repositories each one fares as if it were merged alone. */
  lemma {:induction false} ShareAsIfAlone(b: Board, n: nat, shares: seq<Share>, oldest: int, i: nat)
    requires AllFit(shares) && OneEach(shares) && i < |shares|
    ensures Alike(MergedShares(b, n, shares, oldest), MergedShare(b, n, shares[i], oldest), shares[i].repo)
  {
    var most, last := shares[..|shares| - 1], shares[|shares| - 1];
    if i == |shares| - 1 {
      SharesElsewhere(b, n, most, oldest, last.repo);
      ShareLocal(MergedShares(b, n, most, oldest), b, n, last, oldest);
    } else {
      ShareAsIfAlone(b, n, most, oldest, i);
      ShareElsewhere(MergedShares(b, n, most, oldest), n, last, oldest, shares[i].repo);
    }
  }

  // ---- The theorems ----

  lemma MergedFromAlike(b: Board, n: nat, shares: seq<Share>, oldest: int, j: RepoKey)
    ensures Alike(MergedFrom(b, n, shares, oldest), MergedShares(b, n, shares, oldest), j)
  {
  }

  /** A merge leaves every repository it does not name alone, its own row included. */
  lemma OthersUntouched(b: Board, n: nat, shares: seq<Share>, oldest: int, j: RepoKey)
    requires AllFit(shares) && !Names(shares, j)
    ensures Alike(MergedFrom(b, n, shares, oldest), b, j)
    ensures forall i | 0 <= i < |b.snap.repos| && b.snap.repos[i].home == j ::
              |MergedFrom(b, n, shares, oldest).snap.repos| > i && MergedFrom(b, n, shares, oldest).snap.repos[i] == b.snap.repos[i]
  {
    MergedFromAlike(b, n, shares, oldest, j);
    SharesElsewhere(b, n, shares, oldest, j);
    assert j !in Whole(shares);
  }

  /**
   * `after` holds of `share`'s repository exactly its new rows, less the settled ones, boxes put right,
   * and the settled marks and overrides the merge left.
   */
  ghost predicate Replaces(b: Board, after: Board, n: nat, share: Share, oldest: int) {
    && AgreeOn(after.settled, Held(b.settled, Listed(SharePrs(b.snap, share)), Some(share.repo), oldest), share.repo)
    && AgreeOn(after.overrides,
               Unretired(b.overrides, n, Listed(At(after.snap.prs, share.repo)), Repo(share.repo), ReadOf(share.source)), share.repo)
    && Same(At(after.snap.prs, share.repo), NewRows(b, share.repo, n, SharePrs(b.snap, share), ReadOf(share.source), oldest))
    && Same(At(after.snap.issues, share.repo), ShareIssues(b.snap, share))
    && share.repo in after.scoped && after.scoped[share.repo] == n
  }

  lemma NamedReplaced(b: Board, n: nat, shares: seq<Share>, oldest: int, i: nat)
    requires AllFit(shares) && OneEach(shares) && i < |shares| && !Skipped(b.scoped, shares[i], n)
    ensures Replaces(b, MergedFrom(b, n, shares, oldest), n, shares[i], oldest)
  {
    var share := shares[i];
    MergedFromAlike(b, n, shares, oldest, share.repo);
    ShareAsIfAlone(b, n, shares, oldest, i);
    SharesOwn(b.snap, share);
    MergedPrs(b, share.repo, n, SharePrs(b.snap, share), ShareIssues(b.snap, share), ReadOf(share.source), oldest, share.repo);
    MergedIssues(b, share.repo, n, SharePrs(b.snap, share), ShareIssues(b.snap, share), ReadOf(share.source), oldest, share.repo);
    MergedOverrides(b, share.repo, n, SharePrs(b.snap, share), ShareIssues(b.snap, share), ReadOf(share.source), oldest);
    SameListed(At(MergedFrom(b, n, shares, oldest).snap.prs, share.repo), At(MergedShare(b, n, share, oldest).snap.prs, share.repo));
  }

  lemma MergedOverrides(b: Board, k: RepoKey, n: nat, prs: seq<Row>, issues: seq<Row>, read: ReadRows, oldest: int)
    requires AllOf(prs, k)
    ensures var m := MergedRepo(b, k, n, prs, issues, read, oldest);
            AgreeOn(m.overrides, Unretired(b.overrides, n, Listed(At(m.snap.prs, k)), Repo(k), read), k)
  {
    var held := Held(b.settled, Listed(prs), Some(k), oldest);
    var replacing, m := Unsettled(prs, held), MergedRepo(b, k, n, prs, issues, read, oldest);
    FilterKeepsAllOf(prs, NotIn(held.Keys), k);
    MergedPrs(b, k, n, prs, issues, read, oldest, k);
    SameListed(At(m.snap.prs, k), Map(replacing, Boxed(b.overrides, n, Repo(k), read)));
    BoxedListed(replacing, Boxed(b.overrides, n, Repo(k), read));
    forall id: Id | id.home == k
      ensures id in Listed(Filter(b.snap.prs, NotOf(k)) + replacing) <==> id in Listed(At(m.snap.prs, k))
    {
      ListedHas(b.snap.prs, replacing, k, id);
    }
    UnretiredLocal(b.overrides, b.overrides, n, Listed(Filter(b.snap.prs, NotOf(k)) + replacing), Listed(At(m.snap.prs, k)), read, k);
  }

  lemma BoxedListed(rows: seq<Row>, f: Row -> Row)
    requires forall r: Row :: f(r).id == r.id
    ensures Listed(Map(rows, f)) == Listed(rows)
  {
    forall id ensures id in Listed(Map(rows, f)) <==> id in Listed(rows) {
      if i :| 0 <= i < |rows| && rows[i].id == id {
        assert Map(rows, f)[i] in Map(rows, f);
      }
    }
  }

  /** A poll a newer fetch has overtaken changes nothing about the repository. */
  lemma OvertakenPollSkipped(b: Board, n: nat, shares: seq<Share>, oldest: int, i: nat)
    requires AllFit(shares) && OneEach(shares) && i < |shares| && Skipped(b.scoped, shares[i], n)
    ensures Alike(MergedFrom(b, n, shares, oldest), b, shares[i].repo)
  {
    MergedFromAlike(b, n, shares, oldest, shares[i].repo);
    ShareAsIfAlone(b, n, shares, oldest, i);
  }

  lemma SharesPermuted(b: Board, n: nat, shares: seq<Share>, shares': seq<Share>, oldest: int, j: RepoKey)
    requires AllFit(shares) && OneEach(shares) && AllFit(shares') && OneEach(shares') && Same(shares, shares')
    ensures Alike(MergedShares(b, n, shares, oldest), MergedShares(b, n, shares', oldest), j)
  {
    if i :| 0 <= i < |shares| && shares[i].repo == j {
      assert shares[i] in multiset(shares');
      var i' :| 0 <= i' < |shares'| && shares'[i'] == shares[i];
      ShareAsIfAlone(b, n, shares, oldest, i);
      ShareAsIfAlone(b, n, shares', oldest, i');
    } else {
      if i' :| 0 <= i' < |shares'| && shares'[i'].repo == j {
        assert shares'[i'] in multiset(shares);
      }
      SharesElsewhere(b, n, shares, oldest, j);
      SharesElsewhere(b, n, shares', oldest, j);
    }
  }

  /**
   * The order in which distinct repositories are merged does not matter: the same rows come out, and
   * the same numbers, marks and overrides.
   */
  lemma AnyOrder(b: Board, n: nat, shares: seq<Share>, shares': seq<Share>, oldest: int)
    requires AllFit(shares) && OneEach(shares) && AllFit(shares') && OneEach(shares') && Same(shares, shares')
    ensures var m, m' := MergedFrom(b, n, shares, oldest), MergedFrom(b, n, shares', oldest);
            && Same(m.snap.prs, m'.snap.prs) && Same(m.snap.issues, m'.snap.issues) && m.snap.repos == m'.snap.repos
            && m.scoped == m'.scoped && m.settled == m'.settled && m.overrides == m'.overrides
  {
    var m, m' := MergedShares(b, n, shares, oldest), MergedShares(b, n, shares', oldest);
    forall j ensures Alike(m, m', j) {
      SharesPermuted(b, n, shares, shares', oldest, j);
    }
    AlikeEverywhere(m, m');
    forall share ensures share in shares <==> share in shares' {
      assert share in shares <==> share in multiset(shares);
      assert share in shares' <==> share in multiset(shares');
    }
    assert Whole(shares) == Whole(shares');
  }

  lemma AlikeEverywhere(m: Board, m': Board)
    requires forall j :: Alike(m, m', j)
    ensures Same(m.snap.prs, m'.snap.prs) && Same(m.snap.issues, m'.snap.issues)
    ensures m.scoped == m'.scoped && m.settled == m'.settled && m.overrides == m'.overrides
  {
    forall j ensures Same(At(m.snap.prs, j), At(m'.snap.prs, j)) && Same(At(m.snap.issues, j), At(m'.snap.issues, j)) {
      assert Alike(m, m', j);
    }
    SameEverywhere(m.snap.prs, m'.snap.prs);
    SameEverywhere(m.snap.issues, m'.snap.issues);
    assert m.scoped == m'.scoped by {
      forall j ensures (j in m.scoped <==> j in m'.scoped) && (j in m.scoped ==> m.scoped[j] == m'.scoped[j]) {
        assert Alike(m, m', j);
      }
    }
    assert m.settled == m'.settled && m.overrides == m'.overrides by {
      forall id: Id
        ensures (id in m.settled <==> id in m'.settled) && (id in m.settled ==> m.settled[id] == m'.settled[id])
        ensures (id in m.overrides <==> id in m'.overrides) && (id in m.overrides ==> m.overrides[id] == m'.overrides[id])
      {
        assert Alike(m, m', id.home);
      }
    }
  }

  /** Whatever was merged, both lists end newest first. */
  lemma NewestFirstAfter(b: Board, n: nat, shares: seq<Share>, oldest: int)
    requires exists i | 0 <= i < |shares| :: !Skipped(b.scoped, shares[i], n)
    requires OneEach(shares) && AllFit(shares)
    ensures Sorted(MergedFrom(b, n, shares, oldest).snap)
  {
    var i :| 0 <= i < |shares| && !Skipped(b.scoped, shares[i], n);
    SortedOnce(b, n, shares, oldest, i);
  }

  predicate Sorted(snap: Snapshot) {
    NewestFirst(snap.prs) && NewestFirst(snap.issues)
  }

  lemma ShareSorts(b: Board, n: nat, share: Share, oldest: int)
    requires !Skipped(b.scoped, share, n) || Sorted(b.snap)
    ensures Sorted(MergedShare(b, n, share, oldest).snap)
  {
  }

  lemma {:induction false} SortedOnce(b: Board, n: nat, shares: seq<Share>, oldest: int, i: nat)
    requires OneEach(shares) && AllFit(shares) && i < |shares| && !Skipped(b.scoped, shares[i], n)
    ensures Sorted(MergedShares(b, n, shares, oldest).snap)
  {
    hide MergedShare, Sorted;
    var most, last := shares[..|shares| - 1], shares[|shares| - 1];
    var merged := MergedShares(b, n, most, oldest);
    if i < |most| {
      SortedOnce(b, n, most, oldest, i);
    } else {
      SharesElsewhere(b, n, most, oldest, last.repo);
      assert Alike(merged, b, last.repo);
    }
    ShareSorts(merged, n, last, oldest);
  }

  ghost predicate ReplacedBy(b: Board, after: Board, n: nat, share: Share, oldest: int, j: RepoKey) {
    share.repo == j && !Skipped(b.scoped, share, n) && Replaces(b, after, n, share, oldest)
  }

  /** Every repository is either as it was, or replaced by its share. */
  ghost predicate Merges(b: Board, after: Board, n: nat, shares: seq<Share>, oldest: int) {
    forall j ::
      || Alike(after, b, j)
      || exists i | 0 <= i < |shares| :: ReplacedBy(b, after, n, shares[i], oldest, j)
  }

  lemma MergedFromMerges(b: Board, n: nat, shares: seq<Share>, oldest: int)
    requires AllFit(shares) && OneEach(shares)
    ensures Merges(b, MergedFrom(b, n, shares, oldest), n, shares, oldest)
  {
    forall j | !Alike(MergedFrom(b, n, shares, oldest), b, j)
      ensures exists i | 0 <= i < |shares| ::
                ReplacedBy(b, MergedFrom(b, n, shares, oldest), n, shares[i], oldest, j)
    {
      if !Names(shares, j) {
        OthersUntouched(b, n, shares, oldest, j);
      } else {
        var i :| 0 <= i < |shares| && shares[i].repo == j;
        if Skipped(b.scoped, shares[i], n) {
          OvertakenPollSkipped(b, n, shares, oldest, i);
        } else {
          NamedReplaced(b, n, shares, oldest, i);
        }
      }
    }
  }
}
