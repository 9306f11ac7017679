/** A full refresh: assembling what the sources answered, and landing it over what came in meanwhile. */
module Refresh {
  import opened Prelude
  import opened Seqs
  import opened Rows
  import opened Merge

  /** A repository a source could not fully fetch, and which of its lists it failed on. */
  datatype Failed = Failed(repo: string, prs: bool, issues: bool)

  /** The two lists a snapshot holds. */
  datatype Part = Prs | Issues

  /**
   * What a source comes back with. One that was asked answers for its forge, naming the repositories
   * it could not fully fetch and those it skipped as unchanged; one that failed or never answered is
   * unreachable and carries no rows of use. One held back on its budget was not asked: its rows are
   * those of the snapshot the refresh started from, and its health is the one it had.
   */
  datatype Answer =
    | Asked(forge: Forge, reachable: bool, prs: seq<Row>, issues: seq<Row>, repos: seq<RepoRow>,
            failed: seq<Failed>, skipped: set<string>)
    | HeldBack(forge: Forge, reachable: bool)

  function Get(snap: Snapshot, p: Part): seq<Row> {
    if p.Prs? then snap.prs else snap.issues
  }

  function Answered(a: Answer, p: Part): seq<Row>
    requires a.Asked?
  {
    if p.Prs? then a.prs else a.issues
  }

  function OfForge(f: Forge): Row -> bool {
    (r: Row) => r.id.home.forge == f
  }

  function RepoOfForge(f: Forge): RepoRow -> bool {
    (r: RepoRow) => r.home.forge == f
  }

  predicate Lost(failed: Failed, p: Part) {
    if p.Prs? then failed.prs else failed.issues
  }

  /** keepFailedRepos: what the forge had, for each repository whose list `p` failed. */
  function PutBack(failed: seq<Failed>, p: Part, f: Forge, rows: seq<Row>): seq<Row> {
    if failed == [] then []
    else
      var last := failed[|failed| - 1];
      PutBack(failed[..|failed| - 1], p, f, rows) + (if Lost(last, p) then At(rows, RepoKey(f, last.repo)) else [])
  }

  /** keepUnchangedRepos: the repositories a source skipped as unchanged. */
  function SkippedBy(f: Forge, skipped: set<string>): Row -> bool {
    (r: Row) => r.id.home.forge == f && r.id.home.repo in skipped
  }

  /** The repositories whose list `p` an answer leaves to be put back. */
  predicate Missing(a: Answer, p: Part, k: RepoKey)
    requires a.Asked?
  {
    k.forge == a.forge && (k.repo in a.skipped || exists x | x in a.failed :: x.repo == k.repo && Lost(x, p))
  }

  /** The snapshots a refresh carries rows over from: at its start, and when every source is in. */
  datatype Earlier = Earlier(start: Snapshot, now: Snapshot)

  /** One source's rows in refresh `n`: its own, and those put back for what it did not fetch. */
  function RowsFrom(a: Answer, p: Part, n: nat, earlier: Earlier, good: set<Forge>): seq<Row> {
    if a.reachable then
      match a
      case Asked(_, _, _, _, _, _, _) =>
        Map(Answered(a, p), Stamp(n)) + PutBack(a.failed, p, a.forge, Get(earlier.now, p))
        + Filter(Get(earlier.now, p), SkippedBy(a.forge, a.skipped))
      case HeldBack(f, _) => Filter(Get(earlier.start, p), OfForge(f))
    else if a.forge in good then Filter(Get(earlier.now, p), OfForge(a.forge))
    else
      match a
      case Asked(_, _, _, _, _, _, _) => Map(Answered(a, p), Stamp(n))
      case HeldBack(f, _) => Filter(Get(earlier.start, p), OfForge(f))
  }

  /** A repository row as fetch `n` read it, marked stale when part of the repository failed. */
  function StampRepo(n: nat, failed: set<RepoKey>): RepoRow -> RepoRow {
    (r: RepoRow) => RepoRow(r.home, r.stale || r.home in failed, n)
  }

  function ReposFrom(a: Answer, n: nat, earlier: Earlier, good: set<Forge>): seq<RepoRow> {
    if !a.reachable && a.forge in good then Filter(earlier.now.repos, RepoOfForge(a.forge))
    else
      match a
      case Asked(f, reachable, _, _, repos, failed, _) =>
        Map(repos, StampRepo(n, if reachable then (set x | x in failed :: RepoKey(f, x.repo)) else {}))
      case HeldBack(f, _) => Filter(earlier.start.repos, RepoOfForge(f))
  }

  /** The forges with a good answer to carry over from, once `answers` have been taken in. */
  function Good(answers: seq<Answer>, good: set<Forge>): set<Forge> {
    good + set a | a in answers && a.reachable :: a.forge
  }

  function AllRows(answers: seq<Answer>, p: Part, n: nat, earlier: Earlier, good: set<Forge>): seq<Row> {
    if answers == [] then []
    else
      var most, last := answers[..|answers| - 1], answers[|answers| - 1];
      AllRows(most, p, n, earlier, good) + RowsFrom(last, p, n, earlier, Good(most, good))
  }

  function AllRepos(answers: seq<Answer>, n: nat, earlier: Earlier, good: set<Forge>): seq<RepoRow> {
    if answers == [] then []
    else
      var most, last := answers[..|answers| - 1], answers[|answers| - 1];
      AllRepos(most, n, earlier, good) + ReposFrom(last, n, earlier, Good(most, good))
  }

  /** The forges that answered; the last word about a forge counts. */
  function Reached(answers: seq<Answer>): set<Forge> {
    if answers == [] then {}
    else
      var most, last := Reached(answers[..|answers| - 1]), answers[|answers| - 1];
      if last.reachable then most + {last.forge} else most - {last.forge}
  }

  /** rowsRead: the pull requests the sources asked returned. */
  function RowsRead(answers: seq<Answer>): set<Id> {
    set a, r | a in answers && a.Asked? && r in a.prs :: r.id
  }

  /** The rows before anything is settled or sorted. */
  function Gathered(answers: seq<Answer>, n: nat, earlier: Earlier, good: set<Forge>): Snapshot {
    Snapshot(AllRows(answers, Prs, n, earlier, good), AllRows(answers, Issues, n, earlier, good), AllRepos(answers, n, earlier, good))
  }

  /** The snapshot a refresh comes to before it takes the lock, and the settled marks left. */
  function Assembled(answers: seq<Answer>, n: nat, earlier: Earlier, good: set<Forge>, settled: map<Id, int>, oldest: int)
      : (Snapshot, map<Id, int>) {
    var all := Gathered(answers, n, earlier, good);
    var held := Held(settled, Listed(all.prs), None, oldest);
    (Snapshot(SortByRecency(Unsettled(all.prs, held)), SortByRecency(all.issues), all.repos), held)
  }

  // Landing

  function LastOf(rows: seq<RepoRow>, k: RepoKey): Option<RepoRow> {
    if rows == [] then None
    else if rows[|rows| - 1].home == k then Some(rows[|rows| - 1])
    else LastOf(rows[..|rows| - 1], k)
  }

  function Kept(current: seq<RepoRow>, newer: set<RepoKey>): RepoRow -> RepoRow {
    (r: RepoRow) => if r.home in newer && LastOf(current, r.home).Some? then LastOf(current, r.home).value else r
  }

  /** keepRows. */
  function KeepRows(repos: seq<RepoRow>, current: seq<RepoRow>, newer: set<RepoKey>): seq<RepoRow> {
    Map(repos, Kept(current, newer))
  }

  /** The repositories a scoped merge numbered above `n` wrote last. */
  function Newer(scoped: map<RepoKey, nat>, n: nat): set<RepoKey> {
    set k | k in scoped && scoped[k] > n
  }

  function Mixed(rows: seq<Row>, current: seq<Row>, newer: set<RepoKey>): seq<Row> {
    Filter(rows, NotInRepos(newer)) + Filter(current, InRepos(newer))
  }

  /** keepNewerScopedRepos. */
  function KeepNewer(snap: Snapshot, current: Snapshot, newer: set<RepoKey>): Snapshot {
    if newer == {} then snap
    else
      Snapshot(SortByRecency(Mixed(snap.prs, current.prs, newer)), SortByRecency(Mixed(snap.issues, current.issues, newer)),
               KeepRows(snap.repos, current.repos, newer))
  }

  /** A refresh lands: under the lock, what is newer is kept and the boxes are put right. */
  function Landed(b: Board, n: nat, snap: Snapshot, reached: set<Forge>, read: set<Id>): Board {
    var kept := KeepNewer(snap, b.snap, Newer(b.scoped, n));
    b.(snap := kept.(prs := Map(kept.prs, Boxed(b.overrides, n, Forges(reached), Only(read)))),
       overrides := Unretired(b.overrides, n, Listed(kept.prs), Forges(reached), Only(read)))
  }

  // ---- Which rows a refresh read itself ----

  /** Whether a source's rows of `k` are put back from a snapshot rather than fetched. */
  predicate Carries(a: Answer, p: Part, good: set<Forge>, k: RepoKey) {
    k.forge == a.forge &&
    match a
    case Asked(_, reachable, _, _, _, _, _) => if reachable then Missing(a, p, k) else a.forge in good
    case HeldBack(_, _) => true
  }

  predicate Carried(answers: seq<Answer>, p: Part, good: set<Forge>, k: RepoKey) {
    if answers == [] then false
    else
      var most, last := answers[..|answers| - 1], answers[|answers| - 1];
      Carried(most, p, good, k) || Carries(last, p, Good(most, good), k)
  }

  lemma {:induction false} PutBackHas(failed: seq<Failed>, p: Part, f: Forge, rows: seq<Row>)
    ensures forall r | r in PutBack(failed, p, f, rows) ::
              r in rows && r.id.home.forge == f && exists x | x in failed :: x.repo == r.id.home.repo && Lost(x, p)
  {
    if failed != [] {
      var last := failed[|failed| - 1];
      PutBackHas(failed[..|failed| - 1], p, f, rows);
      FilterHas(rows, Of(RepoKey(f, last.repo)));
    }
  }

  lemma FromOneSource(a: Answer, p: Part, n: nat, earlier: Earlier, good: set<Forge>)
    ensures forall r | r in RowsFrom(a, p, n, earlier, good) ::
              r.stamp == n || (Carries(a, p, good, r.id.home) && (r in Get(earlier.now, p) || r in Get(earlier.start, p)))
  {
    FilterHas(Get(earlier.now, p), OfForge(a.forge));
    FilterHas(Get(earlier.start, p), OfForge(a.forge));
    if a.Asked? {
      FilterHas(Get(earlier.now, p), SkippedBy(a.forge, a.skipped));
      PutBackHas(a.failed, p, a.forge, Get(earlier.now, p));
    }
  }

  /** Every row a refresh gathers it either read itself, or carries over for a repository it did not fetch. */
  lemma {:induction false} FromAllSources(answers: seq<Answer>, p: Part, n: nat, earlier: Earlier, good: set<Forge>)
    ensures forall r | r in AllRows(answers, p, n, earlier, good) ::
              r.stamp == n || (Carried(answers, p, good, r.id.home) && (r in Get(earlier.now, p) || r in Get(earlier.start, p)))
  {
    if answers != [] {
      var most, last := answers[..|answers| - 1], answers[|answers| - 1];
      FromAllSources(most, p, n, earlier, good);
      FromOneSource(last, p, n, earlier, Good(most, good));
    }
  }

  lemma MapIn(rows: seq<Row>, f: Row -> Row)
    ensures forall r | r in rows :: f(r) in Map(rows, f)
  {
    forall r | r in rows ensures f(r) in Map(rows, f) {
      var i :| 0 <= i < |rows| && rows[i] == r;
      assert Map(rows, f)[i] in Map(rows, f);
    }
  }

  lemma {:induction false} PutBackAll(failed: seq<Failed>, p: Part, f: Forge, rows: seq<Row>, x: Failed)
    requires x in failed && Lost(x, p)
    ensures forall r | r in rows && r.id.home == RepoKey(f, x.repo) :: r in PutBack(failed, p, f, rows)
  {
    var most, last := failed[..|failed| - 1], failed[|failed| - 1];
    FilterHas(rows, Of(RepoKey(f, last.repo)));
    if x != last {
      assert x in most;
      PutBackAll(most, p, f, rows, x);
    }
  }

  /** The snapshot a source's carried-over rows come from. */
  function CarriedFrom(a: Answer, earlier: Earlier, good: set<Forge>): Snapshot {
    if a.HeldBack? && (a.reachable || a.forge !in good) then earlier.start else earlier.now
  }

  lemma NothingDroppedByOne(a: Answer, p: Part, n: nat, earlier: Earlier, good: set<Forge>)
    ensures a.Asked? && a.reachable ==> forall r | r in Answered(a, p) :: r.(stamp := n) in RowsFrom(a, p, n, earlier, good)
    ensures forall r | r in Get(CarriedFrom(a, earlier, good), p) && Carries(a, p, good, r.id.home) ::
              r in RowsFrom(a, p, n, earlier, good)
  {
    FilterHas(Get(earlier.now, p), OfForge(a.forge));
    FilterHas(Get(earlier.start, p), OfForge(a.forge));
    if a.Asked? && a.reachable {
      MapIn(Answered(a, p), Stamp(n));
      FilterHas(Get(earlier.now, p), SkippedBy(a.forge, a.skipped));
      forall r | r in Get(earlier.now, p) && Carries(a, p, good, r.id.home) ensures r in RowsFrom(a, p, n, earlier, good) {
        if r.id.home.repo !in a.skipped {
          var x :| x in a.failed && x.repo == r.id.home.repo && Lost(x, p);
          PutBackAll(a.failed, p, a.forge, Get(earlier.now, p), x);
        }
      }
    }
  }

  /**
   * A list that failed is not an empty one: every row a source answered is gathered, and so is every
   * row the forge had in a repository whose list failed, was skipped as unchanged, or was not asked for.
   */
  lemma {:induction false} NothingIsDropped(answers: seq<Answer>, p: Part, n: nat, earlier: Earlier, good: set<Forge>, i: nat)
    requires i < |answers|
    ensures var a, had := answers[i], Good(answers[..i], good);
            && (a.Asked? && a.reachable ==> forall r | r in Answered(a, p) :: r.(stamp := n) in AllRows(answers, p, n, earlier, good))
            && (forall r | r in Get(CarriedFrom(a, earlier, had), p) && Carries(a, p, had, r.id.home) ::
                  r in AllRows(answers, p, n, earlier, good))
  {
    var most := answers[..|answers| - 1];
    if i < |most| {
      assert most[..i] == answers[..i];
      NothingIsDropped(most, p, n, earlier, good, i);
    } else {
      assert most == answers[..i];
      NothingDroppedByOne(answers[i], p, n, earlier, Good(most, good));
    }
  }

  /** The rows of `snap` a refresh read itself, or carried over from an earlier snapshot. */
  ghost predicate MadeOf(snap: Snapshot, p: Part, n: nat, earlier: Earlier, answers: seq<Answer>, good: set<Forge>) {
    forall r | r in Get(snap, p) ::
      r.stamp == n || (Carried(answers, p, good, r.id.home) && (r in Get(earlier.now, p) || r in Get(earlier.start, p)))
  }

  lemma AssembledMadeOf(answers: seq<Answer>, n: nat, earlier: Earlier, good: set<Forge>, settled: map<Id, int>, oldest: int, p: Part)
    ensures MadeOf(Assembled(answers, n, earlier, good, settled, oldest).0, p, n, earlier, answers, good)
  {
    FromAllSources(answers, p, n, earlier, good);
    var all := Gathered(answers, n, earlier, good);
    var held := Held(settled, Listed(all.prs), None, oldest);
    FilterHas(all.prs, NotIn(held.Keys));
    SortHas(Unsettled(all.prs, held));
    SortHas(all.issues);
  }

  // ---- What landing leaves of each repository ----

  lemma MixedAt(rows: seq<Row>, current: seq<Row>, newer: set<RepoKey>, k: RepoKey)
    ensures At(Mixed(rows, current, newer), k) == At(if k in newer then current else rows, k)
  {
    var a, b := Filter(rows, NotInRepos(newer)), Filter(current, InRepos(newer));
    FilterConcat(a, b, Of(k));
    FilterHas(rows, NotInRepos(newer));
    FilterHas(current, InRepos(newer));
    if k in newer {
      FilterNone(a, Of(k));
      FilterTwice(current, InRepos(newer), Of(k));
    } else {
      FilterNone(b, Of(k));
      FilterTwice(rows, NotInRepos(newer), Of(k));
    }
  }

  lemma KeepNewerAt(snap: Snapshot, current: Snapshot, newer: set<RepoKey>, p: Part, k: RepoKey)
    ensures Same(At(Get(KeepNewer(snap, current, newer), p), k), At(Get(if k in newer then current else snap, p), k))
  {
    if newer != {} {
      MixedAt(Get(snap, p), Get(current, p), newer, k);
      SortAt(Mixed(Get(snap, p), Get(current, p), newer), k);
    }
  }

  /** A row with its box left out, which is all landing may change of it. */
  function Unboxed(): Row -> Row {
    (r: Row) => r.(box := false)
  }

  lemma BoxingAside(rows: seq<Row>, overrides: map<Id, Override>, n: nat, cover: Cover, read: ReadRows, k: RepoKey)
    ensures Map(At(Map(rows, Boxed(overrides, n, cover, read)), k), Unboxed()) == Map(At(rows, k), Unboxed())
  {
    BoxedAt(rows, Boxed(overrides, n, cover, read), k);
  }

  /** Whatever landing leaves of a repository is, boxes aside, what the one or the other snapshot held of it. */
  lemma LandedAt(b: Board, n: nat, snap: Snapshot, reached: set<Forge>, read: set<Id>, p: Part, k: RepoKey)
    ensures Same(Map(At(Get(Landed(b, n, snap, reached, read).snap, p), k), Unboxed()),
                 Map(At(Get(if k in Newer(b.scoped, n) then b.snap else snap, p), k), Unboxed()))
  {
    var kept, newer := KeepNewer(snap, b.snap, Newer(b.scoped, n)), Newer(b.scoped, n);
    var from := At(Get(if k in newer then b.snap else snap, p), k);
    KeepNewerAt(snap, b.snap, newer, p, k);
    MapSame(At(Get(kept, p), k), from, Unboxed());
    if p.Prs? {
      BoxingAside(kept.prs, b.overrides, n, Forges(reached), Only(read), k);
    }
  }

  /** Landing writes no repository's own row back: where a newer merge wrote, the row is the current one. */
  lemma LandedRepoRows(b: Board, n: nat, snap: Snapshot, reached: set<Forge>, read: set<Id>, i: nat)
    requires i < |snap.repos|
    ensures var after := Landed(b, n, snap, reached, read).snap.repos;
            && |after| == |snap.repos| && after[i].home == snap.repos[i].home
            && (after[i].home in Newer(b.scoped, n) && (exists r | r in b.snap.repos :: r.home == after[i].home) ==>
                  after[i] in b.snap.repos)
            && (after[i].home !in Newer(b.scoped, n) ==> after[i] == snap.repos[i])
  {
    LastOfHas(b.snap.repos, snap.repos[i].home);
  }

  /** The `i`th answer says that the forge was reached, and no later one is about it. */
  ghost predicate SaysReached(answers: seq<Answer>, f: Forge, i: nat)
    requires i < |answers|
  {
    answers[i].forge == f && answers[i].reachable && forall j | i < j < |answers| :: answers[j].forge != f
  }

  lemma SaysNext(answers: seq<Answer>, f: Forge, i: nat)
    requires i < |answers| - 1
    ensures SaysReached(answers, f, i) <==> SaysReached(answers[..|answers| - 1], f, i) && answers[|answers| - 1].forge != f
  {
    var most := answers[..|answers| - 1];
    assert forall j | i < j < |most| :: most[j] == answers[j];
  }

  /** The last word about a forge counts. */
  lemma {:induction false} ReachedIff(answers: seq<Answer>, f: Forge)
    ensures f in Reached(answers) <==> exists i: nat | i < |answers| :: SaysReached(answers, f, i)
  {
    if answers != [] {
      var most, last := answers[..|answers| - 1], answers[|answers| - 1];
      ReachedIff(most, f);
      assert SaysReached(answers, f, |most|) <==> last.forge == f && last.reachable;
      hide SaysReached;
      forall i: nat | i < |most|
        ensures SaysReached(answers, f, i) <==> SaysReached(most, f, i) && last.forge != f
      {
        SaysNext(answers, f, i);
      }
    }
  }

  /** No row of `k` comes after it. */
  lemma {:induction false} LastIsLast(rows: seq<RepoRow>, k: RepoKey) returns (i: nat)
    requires LastOf(rows, k).Some?
    ensures i < |rows| && rows[i] == LastOf(rows, k).value && forall j | i < j < |rows| :: rows[j].home != k
  {
    if rows[|rows| - 1].home == k {
      i := |rows| - 1;
    } else {
      i := LastIsLast(rows[..|rows| - 1], k);
    }
  }

  lemma {:induction false} LastOfHas(rows: seq<RepoRow>, k: RepoKey)
    ensures LastOf(rows, k).Some? ==> LastOf(rows, k).value in rows && LastOf(rows, k).value.home == k
    ensures LastOf(rows, k).None? ==> forall r | r in rows :: r.home != k
  {
    if rows != [] {
      LastOfHas(rows[..|rows| - 1], k);
    }
  }
}
