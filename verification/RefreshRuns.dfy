/** Every interleaving of full refreshes, scoped refreshes, polls, ticks and settles. */
module RefreshRuns {
  import opened Prelude
  import opened Seqs
  import opened Rows
  import opened Merge
  import opened Refresh

  /**
   * The full refresh in flight; the coalescer lets one run at a time. Once every source is in it is
   * `Ready` to land, still without the lock; `answers` and `had` are history, what it was made from.
   */
  datatype Full =
    | Idle
    | Started(n: nat)
    | Looked(n: nat, start: Snapshot)
    | Ready(n: nat, snap: Snapshot, reached: set<Forge>, read: set<Id>, answers: seq<Answer>, had: set<Forge>)

  /**
   * `fetches` numbers every fetch. `reading` holds the scoped refreshes in flight, one a repository;
   * `polling` the batched polls. `leaving` are the pull requests between the two halves of MarkSettled.
   */
  datatype State = State(
    board: Board,
    fetches: nat,
    good: set<Forge>,
    full: Full,
    reading: map<RepoKey, nat>,
    polling: set<nat>,
    leaving: set<Id>)

  datatype Event =
    | FullBegins
    | FullLooks
    | FullAssembles(answers: seq<Answer>, oldest: int)
    | FullLands
    | RepoBegins(repo: RepoKey)
    | RepoFails(repo: RepoKey)
    | RepoLands(repo: RepoKey, prs: seq<Row>, issues: seq<Row>, whole: bool, oldest: int)
    | PollBegins
    | PollLands(n: nat, pulls: map<Id, Row>, closed: set<Id>, order: seq<RepoKey>, oldest: int)
    | Ticks(id: Id, ticked: bool)
    | Settles(id: Id, at: int)
    | Leaves(id: Id)
    | Unsettles(id: Id)

  function OnFullBegins(s: State): State {
    if !s.full.Idle? then s else s.(fetches := s.fetches + 1, full := Started(s.fetches + 1))
  }

  function OnFullLooks(s: State): State {
    if !s.full.Started? then s else s.(full := Looked(s.full.n, s.board.snap))
  }

  function OnFullAssembles(s: State, answers: seq<Answer>, oldest: int): State {
    if !s.full.Looked? then s
    else
      var (snap, held) := Assembled(answers, s.full.n, Earlier(s.full.start, s.board.snap), s.good, s.board.settled, oldest);
      s.(board := s.board.(settled := held),
         full := Ready(s.full.n, snap, Reached(answers), RowsRead(answers), answers, s.good))
  }

  function OnFullLands(s: State): State {
    if !s.full.Ready? then s
    else
      s.(board := Landed(s.board, s.full.n, s.full.snap, s.full.reached, s.full.read),
         good := Good(s.full.answers, s.full.had),
         full := Idle)
  }

  function OnRepoBegins(s: State, k: RepoKey): State {
    if k in s.reading then s else s.(fetches := s.fetches + 1, reading := s.reading[k := s.fetches + 1])
  }

  function OnRepoFails(s: State, k: RepoKey): State {
    s.(reading := s.reading - {k})
  }

  /** mergeRepo's one share; the fetch's rows carry its number. */
  function RepoShare(k: RepoKey, n: nat, prs: seq<Row>, issues: seq<Row>, whole: bool): Share {
    Share(k, Fetched(Map(prs, Stamp(n)), Map(issues, Stamp(n)), whole))
  }

  function OnRepoLands(s: State, k: RepoKey, prs: seq<Row>, issues: seq<Row>, whole: bool, oldest: int): State {
    if k !in s.reading || !AllOf(prs, k) || !AllOf(issues, k) then s
    else
      s.(board := MergedFrom(s.board, s.reading[k], [RepoShare(k, s.reading[k], prs, issues, whole)], oldest),
         reading := s.reading - {k})
  }

  function OnPollBegins(s: State): State {
    s.(fetches := s.fetches + 1, polling := s.polling + {s.fetches + 1})
  }

  /** A poll's answer names each pull request by its own key, and `order` is some order of its repositories. */
  predicate IsPoll(pulls: map<Id, Row>, closed: set<Id>, order: seq<RepoKey>) {
    && (forall id | id in pulls :: pulls[id].id == id)
    && (forall i, j | 0 <= i < j < |order| :: order[i] != order[j])
    && (set k | k in order) == (set id | id in pulls.Keys + closed :: id.home)
  }

  function PollShares(n: nat, pulls: map<Id, Row>, closed: set<Id>, order: seq<RepoKey>): seq<Share> {
    seq(|order|, i requires 0 <= i < |order| =>
      Share(order[i], Polled(map id | id in pulls :: pulls[id].(stamp := n), closed)))
  }

  function OnPollLands(s: State, n: nat, pulls: map<Id, Row>, closed: set<Id>, order: seq<RepoKey>, oldest: int): State {
    if n !in s.polling || !IsPoll(pulls, closed, order) then s
    else
      s.(board := MergedFrom(s.board, n, PollShares(n, pulls, closed, order), oldest),
         polling := s.polling - {n})
  }

  /** The first row listed under `id`, if any. */
  function IndexOf(rows: seq<Row>, id: Id): (i: nat)
    ensures i <= |rows|
    ensures i < |rows| ==> rows[i].id == id
    ensures forall j | 0 <= j < i :: rows[j].id != id
  {
    if rows == [] then 0
    else
      var i := IndexOf(rows[..|rows| - 1], id);
      if i < |rows| - 1 || rows[|rows| - 1].id == id then i else |rows|
  }

  /** SetRenovateRebaseBox: the box on the snapshot, and an override no earlier fetch may undo. */
  function Ticked(b: Board, id: Id, ticked: bool, fetches: nat): Board {
    var i := IndexOf(b.snap.prs, id);
    if i == |b.snap.prs| then b
    else
      b.(snap := b.snap.(prs := b.snap.prs[i := b.snap.prs[i].(box := ticked)]),
         overrides := b.overrides[id := Override(ticked, fetches)])
  }

  function OnTicks(s: State, id: Id, ticked: bool): State {
    s.(board := Ticked(s.board, id, ticked, s.fetches))
  }

  function OnSettles(s: State, id: Id, at: int): State {
    s.(board := s.board.(settled := s.board.settled[id := at]), leaving := s.leaving + {id})
  }

  function OnLeaves(s: State, id: Id): State {
    if id !in s.leaving then s
    else
      s.(board := s.board.(snap := s.board.snap.(prs := Filter(s.board.snap.prs, NotIn({id})))), leaving := s.leaving - {id})
  }

  function OnUnsettles(s: State, id: Id): State {
    s.(board := s.board.(settled := s.board.settled - {id}))
  }

  function Step(s: State, e: Event): State {
    match e
    case FullBegins => OnFullBegins(s)
    case FullLooks => OnFullLooks(s)
    case FullAssembles(answers, oldest) => OnFullAssembles(s, answers, oldest)
    case FullLands => OnFullLands(s)
    case RepoBegins(k) => OnRepoBegins(s, k)
    case RepoFails(k) => OnRepoFails(s, k)
    case RepoLands(k, prs, issues, whole, oldest) => OnRepoLands(s, k, prs, issues, whole, oldest)
    case PollBegins => OnPollBegins(s)
    case PollLands(n, pulls, closed, order, oldest) => OnPollLands(s, n, pulls, closed, order, oldest)
    case Ticks(id, ticked) => OnTicks(s, id, ticked)
    case Settles(id, at) => OnSettles(s, id, at)
    case Leaves(id) => OnLeaves(s, id)
    case Unsettles(id) => OnUnsettles(s, id)
  }

  const START := State(Board(EMPTY, map[], map[], map[]), 0, {}, Idle, map[], {}, {})

  function Exec(events: seq<Event>): State {
    if events == [] then START
    else Step(Exec(events[..|events| - 1]), events[|events| - 1])
  }

  ghost predicate Reachable(s: State) {
    exists events :: s == Exec(events)
  }

  // ---- What merges leave where ----

  /** A row that was there before, but for its box. */
  ghost predicate Traces(r: Row, rows: seq<Row>) {
    exists q | q in rows :: q.id == r.id && q.stamp == r.stamp
  }

  lemma InAt(rows: seq<Row>, r: Row)
    ensures r in At(rows, r.id.home) <==> r in rows
  {
    FilterHas(rows, Of(r.id.home));
  }

  lemma AlikeHas(b: Board, c: Board, r: Row, p: Part)
    requires Alike(b, c, r.id.home)
    ensures r in Get(b.snap, p) <==> r in Get(c.snap, p)
  {
    InAt(Get(b.snap, p), r);
    InAt(Get(c.snap, p), r);
    SameListed(At(Get(b.snap, p), r.id.home), At(Get(c.snap, p), r.id.home));
  }

  lemma NewRowsHas(b: Board, k: RepoKey, n: nat, prs: seq<Row>, read: ReadRows, oldest: int, r: Row)
    requires r in NewRows(b, k, n, prs, read, oldest)
    ensures Traces(r, prs)
  {
    var held := Held(b.settled, Listed(prs), Some(k), oldest);
    var rows := Unsettled(prs, held);
    FilterHas(prs, NotIn(held.Keys));
    var i :| 0 <= i < |rows| && Boxed(b.overrides, n, Repo(k), read)(rows[i]) == r;
    assert rows[i] in prs;
  }

  /** A row of a repository that a merge replaced comes from that repository's share. */
  lemma ReplacedHas(b: Board, after: Board, n: nat, share: Share, oldest: int, p: Part, r: Row)
    requires Replaces(b, after, n, share, oldest)
    requires r.id.home == share.repo && r in Get(after.snap, p)
    ensures Traces(r, if p.Prs? then SharePrs(b.snap, share) else ShareIssues(b.snap, share))
  {
    InAt(Get(after.snap, p), r);
    if p.Prs? {
      SameListed(At(after.snap.prs, share.repo), NewRows(b, share.repo, n, SharePrs(b.snap, share), ReadOf(share.source), oldest));
      NewRowsHas(b, share.repo, n, SharePrs(b.snap, share), ReadOf(share.source), oldest, r);
    } else {
      SameListed(At(after.snap.issues, share.repo), ShareIssues(b.snap, share));
    }
  }

  /** A row of a poll's share it either read, or found on the board. */
  lemma PolledHas(snap: Snapshot, share: Share, n: nat, p: Part, r: Row)
    requires share.source.Polled? && Fits(share)
    requires forall id | id in share.source.pulls :: share.source.pulls[id].stamp == n
    requires Traces(r, if p.Prs? then SharePrs(snap, share) else ShareIssues(snap, share))
    ensures r.stamp == n || Traces(r, Get(snap, p))
  {
    FilterHas(Get(snap, p), Of(share.repo));
    if p.Prs? && r.stamp != n {
      var rows := Filter(At(snap.prs, share.repo), NotIn(share.source.closed));
      FilterHas(At(snap.prs, share.repo), NotIn(share.source.closed));
      var q :| q in SharePrs(snap, share) && q.id == r.id && q.stamp == r.stamp;
      var i :| 0 <= i < |rows| && Fresh(share.source.pulls)(rows[i]) == q;
      assert rows[i] in snap.prs && rows[i] == q;
    }
  }

  // ---- The invariants ----

  ghost predicate Upto(snap: Snapshot, n: nat) {
    forall p, r | r in Get(snap, p) :: r.stamp <= n
  }

  /** No number is ahead of the counter. */
  ghost predicate Numbered(s: State) {
    && Upto(s.board.snap, s.fetches)
    && (forall k | k in s.reading :: s.reading[k] <= s.fetches)
    && (forall n | n in s.polling :: n <= s.fetches)
    && (!s.full.Idle? ==> s.full.n <= s.fetches)
    && (s.full.Looked? ==> Upto(s.full.start, s.fetches))
    && (s.full.Ready? ==> Upto(s.full.snap, s.fetches))
  }

  ghost predicate Guarded(b: Board, n: nat, r: Row) {
    n < r.stamp ==> r.id.home in b.scoped && n < b.scoped[r.id.home]
  }

  /** While a full refresh is in flight, a repository with rows newer than it is marked as such. */
  ghost predicate NewerMarked(b: Board, n: nat) {
    forall p, r | r in Get(b.snap, p) :: Guarded(b, n, r)
  }

  /** What refresh `n` is about to land it read itself, unless it carries the repository over. */
  ghost predicate ReadSnap(snap: Snapshot, n: nat, answers: seq<Answer>, had: set<Forge>) {
    forall p, r | r in Get(snap, p) :: r.stamp == n || Carried(answers, p, had, r.id.home)
  }

  ghost predicate Inv(s: State) {
    && Numbered(s)
    && (!s.full.Idle? ==> NewerMarked(s.board, s.full.n))
    && (s.full.Ready? ==> ReadSnap(s.full.snap, s.full.n, s.full.answers, s.full.had))
  }

  // What merge `n` makes of a board, as far as the numbers go.

  ghost predicate SameNumber(b: Board, after: Board, k: RepoKey) {
    (k in b.scoped <==> k in after.scoped) && (k in b.scoped ==> after.scoped[k] == b.scoped[k])
  }

  ghost predicate Untouched(b: Board, after: Board, p: Part, r: Row) {
    r in Get(b.snap, p) && SameNumber(b, after, r.id.home)
  }

  ghost predicate Written(b: Board, after: Board, n: nat, p: Part, r: Row) {
    && r.id.home in after.scoped && after.scoped[r.id.home] == n
    && (r.stamp == n || (Traces(r, Get(b.snap, p)) && (r.id.home in b.scoped ==> b.scoped[r.id.home] <= n)))
  }

  ghost predicate Outcome(b: Board, after: Board, n: nat) {
    forall p, r | r in Get(after.snap, p) :: Untouched(b, after, p, r) || Written(b, after, n, p, r)
  }

  lemma OutcomeKeeps(b: Board, after: Board, n: nat, fetches: nat, full: Full)
    requires Outcome(b, after, n) && Upto(b.snap, fetches) && n <= fetches
    requires !full.Idle? ==> NewerMarked(b, full.n)
    ensures Upto(after.snap, fetches)
    ensures !full.Idle? ==> NewerMarked(after, full.n)
  {
    forall p, r | r in Get(after.snap, p)
      ensures r.stamp <= fetches
      ensures !full.Idle? ==> Guarded(after, full.n, r)
    {
      assert Untouched(b, after, p, r) || Written(b, after, n, p, r);
      if !Untouched(b, after, p, r) && r.stamp != n {
        var q :| q in Get(b.snap, p) && q.id == r.id && q.stamp == r.stamp;
        assert !full.Idle? ==> Guarded(b, full.n, q);
      } else {
        assert !full.Idle? && r in Get(b.snap, p) ==> Guarded(b, full.n, r);
      }
    }
  }

  /** A share's rows carry the number of the fetch that answered it, or come from the board. */
  ghost predicate Marked(share: Share, n: nat) {
    match share.source
    case Fetched(prs, issues, _) => AllStamped(prs, n) && AllStamped(issues, n)
    case Polled(pulls, _) => forall id | id in pulls :: pulls[id].stamp == n
  }

  lemma WrittenRow(b: Board, after: Board, n: nat, share: Share, oldest: int, p: Part, r: Row)
    requires Replaces(b, after, n, share, oldest) && Fits(share) && Marked(share, n) && !Skipped(b.scoped, share, n)
    requires r in Get(after.snap, p) && r.id.home == share.repo
    ensures Written(b, after, n, p, r)
  {
    ReplacedHas(b, after, n, share, oldest, p, r);
    if share.source.Polled? {
      PolledHas(b.snap, share, n, p, r);
    }
  }

  lemma MergeOutcome(b: Board, after: Board, n: nat, shares: seq<Share>, oldest: int)
    requires Merges(b, after, n, shares, oldest) && AllFit(shares)
    requires forall i | 0 <= i < |shares| :: Marked(shares[i], n)
    ensures Outcome(b, after, n)
  {
    forall p, r | r in Get(after.snap, p) ensures Untouched(b, after, p, r) || Written(b, after, n, p, r) {
      if Alike(after, b, r.id.home) {
        AlikeHas(after, b, r, p);
      } else {
        var i :| 0 <= i < |shares| && ReplacedBy(b, after, n, shares[i], oldest, r.id.home);
        WrittenRow(b, after, n, shares[i], oldest, p, r);
      }
    }
  }

  // ---- Every step keeps them ----

  lemma MergeKeeps(s: State, n: nat, shares: seq<Share>, oldest: int)
    requires Inv(s) && n <= s.fetches
    requires AllFit(shares) && OneEach(shares) && forall i | 0 <= i < |shares| :: Marked(shares[i], n)
    ensures Inv(s.(board := MergedFrom(s.board, n, shares, oldest)))
  {
    var after := MergedFrom(s.board, n, shares, oldest);
    MergedFromMerges(s.board, n, shares, oldest);
    MergeOutcome(s.board, after, n, shares, oldest);
    OutcomeKeeps(s.board, after, n, s.fetches, s.full);
  }

  lemma RepoLandsKeeps(s: State, k: RepoKey, prs: seq<Row>, issues: seq<Row>, whole: bool, oldest: int)
    requires Inv(s)
    ensures Inv(OnRepoLands(s, k, prs, issues, whole, oldest))
  {
    if k in s.reading && AllOf(prs, k) && AllOf(issues, k) {
      MergeKeeps(s, s.reading[k], [RepoShare(k, s.reading[k], prs, issues, whole)], oldest);
    }
  }

  lemma PollLandsKeeps(s: State, n: nat, pulls: map<Id, Row>, closed: set<Id>, order: seq<RepoKey>, oldest: int)
    requires Inv(s)
    ensures Inv(OnPollLands(s, n, pulls, closed, order, oldest))
  {
    if n in s.polling && IsPoll(pulls, closed, order) {
      MergeKeeps(s, n, PollShares(n, pulls, closed, order), oldest);
    }
  }

  lemma FullBeginsKeeps(s: State)
    requires Inv(s)
    ensures Inv(OnFullBegins(s))
  {
    forall p, r | r in Get(s.board.snap, p) ensures s.full.Idle? ==> Guarded(s.board, s.fetches + 1, r) {
      assert r.stamp <= s.fetches;
    }
  }

  lemma AssembledReads(answers: seq<Answer>, n: nat, earlier: Earlier, good: set<Forge>, settled: map<Id, int>, oldest: int,
                       fetches: nat)
    requires n <= fetches && Upto(earlier.now, fetches) && Upto(earlier.start, fetches)
    ensures Upto(Assembled(answers, n, earlier, good, settled, oldest).0, fetches)
    ensures ReadSnap(Assembled(answers, n, earlier, good, settled, oldest).0, n, answers, good)
  {
    var snap := Assembled(answers, n, earlier, good, settled, oldest).0;
    forall p, r | r in Get(snap, p) ensures r.stamp <= fetches && (r.stamp == n || Carried(answers, p, good, r.id.home)) {
      AssembledMadeOf(answers, n, earlier, good, settled, oldest, p);
      assert MadeOf(snap, p, n, earlier, answers, good);
    }
  }

  /** A board that lists a part of the rows, under the same numbers, stays marked. */
  lemma FewerRowsKeep(b: Board, after: Board, n: nat, fetches: nat)
    requires forall p, r | r in Get(after.snap, p) :: Traces(r, Get(b.snap, p))
    requires after.scoped == b.scoped
    ensures NewerMarked(b, n) ==> NewerMarked(after, n)
    ensures Upto(b.snap, fetches) ==> Upto(after.snap, fetches)
  {
    forall p, r | r in Get(after.snap, p)
      ensures NewerMarked(b, n) ==> Guarded(after, n, r)
      ensures Upto(b.snap, fetches) ==> r.stamp <= fetches
    {
      var q :| q in Get(b.snap, p) && q.id == r.id && q.stamp == r.stamp;
      assert NewerMarked(b, n) ==> Guarded(b, n, q);
    }
  }

  lemma FullAssemblesKeeps(s: State, answers: seq<Answer>, oldest: int)
    requires Inv(s)
    ensures Inv(OnFullAssembles(s, answers, oldest))
  {
    if s.full.Looked? {
      AssembledReads(answers, s.full.n, Earlier(s.full.start, s.board.snap), s.good, s.board.settled, oldest, s.fetches);
      FewerRowsKeep(s.board, OnFullAssembles(s, answers, oldest).board, s.full.n, s.fetches);
    }
  }

  lemma FullLandsKeeps(s: State)
    requires Inv(s)
    ensures Inv(OnFullLands(s))
  {
    if s.full.Ready? {
      var after := OnFullLands(s).board;
      forall p, r | r in Get(after.snap, p) ensures r.stamp <= s.fetches {
        LandedHas(s.board, s.full.n, s.full.snap, s.full.reached, s.full.read, p, r);
      }
    }
  }

  /** A row a landing leaves is one the refresh brought, or one a newer merge put there. */
  lemma LandedHas(b: Board, n: nat, snap: Snapshot, reached: set<Forge>, read: set<Id>, p: Part, r: Row)
    requires r in Get(Landed(b, n, snap, reached, read).snap, p)
    ensures Traces(r, Get(if r.id.home in Newer(b.scoped, n) then b.snap else snap, p))
  {
    var k := r.id.home;
    var from := Get(if k in Newer(b.scoped, n) then b.snap else snap, p);
    var left := Get(Landed(b, n, snap, reached, read).snap, p);
    LandedAt(b, n, snap, reached, read, p, k);
    InAt(left, r);
    var i :| 0 <= i < |At(left, k)| && At(left, k)[i] == r;
    assert Map(At(left, k), Unboxed())[i] == Unboxed()(r);
    SameListed(Map(At(left, k), Unboxed()), Map(At(from, k), Unboxed()));
    assert Unboxed()(r) in Map(At(left, k), Unboxed());
    var j :| 0 <= j < |At(from, k)| && Map(At(from, k), Unboxed())[j] == Unboxed()(r);
    FilterHas(from, Of(k));
    assert At(from, k)[j] in from;
  }

  lemma TicksKeeps(s: State, id: Id, ticked: bool)
    requires Inv(s)
    ensures Inv(OnTicks(s, id, ticked))
  {
    var i := IndexOf(s.board.snap.prs, id);
    var after := OnTicks(s, id, ticked).board;
    forall p, r | r in Get(after.snap, p) ensures Traces(r, Get(s.board.snap, p)) {
      if p.Prs? && i < |s.board.snap.prs| {
        assert s.board.snap.prs[i] in s.board.snap.prs;
      }
    }
    FewerRowsKeep(s.board, after, if s.full.Idle? then 0 else s.full.n, s.fetches);
  }

  lemma LeavesKeeps(s: State, id: Id)
    requires Inv(s)
    ensures Inv(OnLeaves(s, id))
  {
    var after := OnLeaves(s, id).board;
    FilterHas(s.board.snap.prs, NotIn({id}));
    FewerRowsKeep(s.board, after, if s.full.Idle? then 0 else s.full.n, s.fetches);
  }

  lemma OthersKeep(s: State, s': State)
    requires Inv(s)
    requires s'.board.snap == s.board.snap && s'.board.scoped == s.board.scoped && s.fetches <= s'.fetches
    requires s'.full == s.full || (s.full.Started? && s'.full == Looked(s.full.n, s.board.snap))
    requires forall k | k in s'.reading :: (k in s.reading && s'.reading[k] == s.reading[k]) || s'.reading[k] <= s'.fetches
    requires forall n | n in s'.polling :: n <= s'.fetches
    ensures Inv(s')
  {
    FewerRowsKeep(s.board, s'.board, if s.full.Idle? then 0 else s.full.n, s.fetches);
  }

  lemma StepKeeps(s: State, e: Event)
    requires Inv(s)
    ensures Inv(Step(s, e))
  {
    match e
    case FullBegins => FullBeginsKeeps(s);
    case FullAssembles(answers, oldest) => FullAssemblesKeeps(s, answers, oldest);
    case FullLands => FullLandsKeeps(s);
    case RepoLands(k, prs, issues, whole, oldest) => RepoLandsKeeps(s, k, prs, issues, whole, oldest);
    case PollLands(n, pulls, closed, order, oldest) => PollLandsKeeps(s, n, pulls, closed, order, oldest);
    case Ticks(id, ticked) => TicksKeeps(s, id, ticked);
    case Leaves(id) => LeavesKeeps(s, id);
    case FullLooks => OthersKeep(s, Step(s, e));
    case RepoBegins(k) => OthersKeep(s, Step(s, e));
    case RepoFails(k) => OthersKeep(s, Step(s, e));
    case PollBegins => OthersKeep(s, Step(s, e));
    case Settles(id, at) => OthersKeep(s, Step(s, e));
    case Unsettles(id) => OthersKeep(s, Step(s, e));
  }

  lemma {:induction false} ExecInv(events: seq<Event>)
    ensures Inv(Exec(events))
  {
    if events != [] {
      ExecInv(events[..|events| - 1]);
      StepKeeps(Exec(events[..|events| - 1]), events[|events| - 1]);
    }
  }

  lemma ReachableInv(s: State)
    requires Reachable(s)
    ensures Inv(s)
  {
    var events :| s == Exec(events);
    ExecInv(events);
  }

  // ---- The theorems ----

  /**
   * A landing full refresh never takes a repository back. Where a scoped merge numbered above it wrote
   * last, the repository keeps, boxes aside, the very rows it had; everywhere else that it fetched,
   * every row is now its own, and none it replaced was read by a later fetch.
   */
  lemma LandingNeverGoesBack(s: State, p: Part, k: RepoKey)
    requires Reachable(s) && s.full.Ready?
    requires !Carried(s.full.answers, p, s.full.had, k)
    ensures var before, after := At(Get(s.board.snap, p), k), At(Get(OnFullLands(s).board.snap, p), k);
            if k in s.board.scoped && s.board.scoped[k] > s.full.n
            then Same(Map(after, Unboxed()), Map(before, Unboxed()))
            else AllStamped(after, s.full.n) && forall r | r in before :: r.stamp <= s.full.n
  {
    ReachableInv(s);
    LandedAt(s.board, s.full.n, s.full.snap, s.full.reached, s.full.read, p, k);
    if !(k in s.board.scoped && s.board.scoped[k] > s.full.n) {
      var after := Get(OnFullLands(s).board.snap, p);
      FilterHas(after, Of(k));
      FilterHas(Get(s.board.snap, p), Of(k));
      forall r | r in At(after, k) ensures r.stamp == s.full.n {
        LandedHas(s.board, s.full.n, s.full.snap, s.full.reached, s.full.read, p, r);
      }
      forall r | r in At(Get(s.board.snap, p), k) ensures r.stamp <= s.full.n {
        assert Guarded(s.board, s.full.n, r);
      }
    }
  }

  lemma StepReachable(s: State, e: Event)
    requires Reachable(s)
    ensures Reachable(Step(s, e))
  {
    var events :| s == Exec(events);
    assert (events + [e])[..|events + [e]| - 1] == events;
    assert Exec(events + [e]) == Step(s, e);
  }
}
