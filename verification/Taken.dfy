/** What a full refresh carries over, and what happened since those rows were taken. */
module Taken {
  import opened Prelude
  import opened Seqs
  import opened Rows
  import opened Merge
  import opened Refresh
  import opened RefreshRuns

  // ---- What the sources promise ----

  /** A list `p` of a repository that failed or was skipped has no rows in the answer. */
  predicate NoneOfMissing(a: Answer, p: Part)
    requires a.Asked?
  {
    forall r | r in Answered(a, p) :: !Missing(a, p, r.id.home)
  }

  /**
   * A source answers for its own forge, each pull request once. It names a repository it failed on
   * once, and not as skipped too; rows of a list it did not fetch are missing, and a source that could
   * not be reached brings none at all.
   */
  ghost predicate Proper(a: Answer) {
    a.Asked? ==>
      && (forall p, r | r in Answered(a, p) :: a.reachable && r.id.home.forge == a.forge)
      && Distinct(a.prs)
      && (forall i, j | 0 <= i < j < |a.failed| :: a.failed[i].repo != a.failed[j].repo)
      && (forall i | 0 <= i < |a.failed| :: a.failed[i].repo !in a.skipped)
      && NoneOfMissing(a, Prs) && NoneOfMissing(a, Issues)
  }

  /** One source a forge, each as it promises to be. */
  ghost predicate Sound(answers: seq<Answer>) {
    && (forall i | 0 <= i < |answers| :: Proper(answers[i]))
    && (forall i, j | 0 <= i < j < |answers| :: answers[i].forge != answers[j].forge)
  }

  /** Whether the rows carried over for `f` are those of the snapshot the refresh started from. */
  predicate FromStart(answers: seq<Answer>, had: set<Forge>, f: Forge) {
    exists a | a in answers :: a.HeldBack? && a.forge == f && (a.reachable || f !in had)
  }

  /** The snapshot whose rows of `k` are carried over. */
  function TakenFrom(answers: seq<Answer>, had: set<Forge>, earlier: Earlier, k: RepoKey): Snapshot {
    if FromStart(answers, had, k.forge) then earlier.start else earlier.now
  }

  // ---- The rows carried over ----

  lemma NoRowsAt(k: RepoKey)
    ensures At([], k) == []
  {
  }

  lemma {:induction false} PutBackAt(failed: seq<Failed>, p: Part, f: Forge, rows: seq<Row>, k: RepoKey)
    requires forall i, j | 0 <= i < j < |failed| :: failed[i].repo != failed[j].repo
    ensures At(PutBack(failed, p, f, rows), k)
            == if k.forge == f && exists x | x in failed :: x.repo == k.repo && Lost(x, p) then At(rows, k) else []
  {
    hide Filter;
    NoRowsAt(k);
    if failed != [] {
      var most, last := failed[..|failed| - 1], failed[|failed| - 1];
      var back := RepoKey(f, last.repo);
      PutBackAt(most, p, f, rows, k);
      FilterConcat(PutBack(most, p, f, rows), if Lost(last, p) then At(rows, back) else [], Of(k));
      FilterHas(rows, Of(back));
      if k == back {
        FilterAll(At(rows, k), Of(k));
        assert forall x | x in most :: x.repo != k.repo;
      } else {
        FilterNone(At(rows, back), Of(k));
      }
    }
  }

  lemma OfForgeAt(rows: seq<Row>, f: Forge, k: RepoKey)
    ensures At(Filter(rows, OfForge(f)), k) == if k.forge == f then At(rows, k) else []
  {
    FilterHas(rows, OfForge(f));
    if k.forge == f {
      FilterTwice(rows, OfForge(f), Of(k));
    } else {
      FilterNone(Filter(rows, OfForge(f)), Of(k));
    }
  }

  lemma SkippedAt(rows: seq<Row>, f: Forge, skipped: set<string>, k: RepoKey)
    ensures At(Filter(rows, SkippedBy(f, skipped)), k) == if k.forge == f && k.repo in skipped then At(rows, k) else []
  {
    FilterHas(rows, SkippedBy(f, skipped));
    if k.forge == f && k.repo in skipped {
      FilterTwice(rows, SkippedBy(f, skipped), Of(k));
    } else {
      FilterNone(Filter(rows, SkippedBy(f, skipped)), Of(k));
    }
  }

  lemma StampedAt(rows: seq<Row>, n: nat, k: RepoKey)
    ensures At(Map(rows, Stamp(n)), k) == Map(At(rows, k), Stamp(n))
  {
    FilterMap(rows, Of(k), Stamp(n));
  }

  /** A source brings no rows of its own for what is carried over, nor any when it could not be reached. */
  lemma NoneOfItsOwn(a: Answer, p: Part, good: set<Forge>, k: RepoKey)
    requires Proper(a) && a.Asked?
    ensures Carries(a, p, good, k) || !a.reachable ==>
              At(Answered(a, p), k) == [] && forall n :: Map(At(Answered(a, p), k), Stamp(n)) == []
  {
    hide Filter;
    if Carries(a, p, good, k) || !a.reachable {
      FilterNone(Answered(a, p), Of(k));
    }
  }

  /** What one source brings of a repository: what the snapshot had, or its own rows of it. */
  lemma RowsFromAt(a: Answer, p: Part, n: nat, earlier: Earlier, good: set<Forge>, k: RepoKey)
    requires Proper(a)
    ensures At(RowsFrom(a, p, n, earlier, good), k)
            == if Carries(a, p, good, k) then At(Get(CarriedFrom(a, earlier, good), p), k)
               else if a.Asked? then Map(At(Answered(a, p), k), Stamp(n)) else []
  {
    hide Filter, PutBack, Map, Distinct;
    OfForgeAt(Get(earlier.now, p), a.forge, k);
    OfForgeAt(Get(earlier.start, p), a.forge, k);
    if a.Asked? {
      NoneOfItsOwn(a, p, good, k);
      StampedAt(Answered(a, p), n, k);
      var own, back, left := Map(Answered(a, p), Stamp(n)), PutBack(a.failed, p, a.forge, Get(earlier.now, p)),
                                  Filter(Get(earlier.now, p), SkippedBy(a.forge, a.skipped));
      PutBackAt(a.failed, p, a.forge, Get(earlier.now, p), k);
      SkippedAt(Get(earlier.now, p), a.forge, a.skipped, k);
      FilterConcat(own + back, left, Of(k));
      FilterConcat(own, back, Of(k));
    }
  }

  lemma NoneFromAnother(a: Answer, p: Part, n: nat, earlier: Earlier, good: set<Forge>, k: RepoKey)
    requires Proper(a) && a.forge != k.forge
    ensures At(RowsFrom(a, p, n, earlier, good), k) == [] && !Carries(a, p, good, k)
  {
    RowsFromAt(a, p, n, earlier, good, k);
    if a.Asked? {
      FilterNone(Answered(a, p), Of(k));
    }
  }

  lemma {:induction false} NoneFromOthers(answers: seq<Answer>, p: Part, n: nat, earlier: Earlier, had: set<Forge>, k: RepoKey)
    requires forall i | 0 <= i < |answers| :: Proper(answers[i]) && answers[i].forge != k.forge
    ensures At(AllRows(answers, p, n, earlier, had), k) == [] && !Carried(answers, p, had, k)
  {
    if answers != [] {
      var most, last := answers[..|answers| - 1], answers[|answers| - 1];
      NoneFromOthers(most, p, n, earlier, had, k);
      NoneFromAnother(last, p, n, earlier, Good(most, had), k);
      FilterConcat(AllRows(most, p, n, earlier, had), RowsFrom(last, p, n, earlier, Good(most, had)), Of(k));
    }
  }

  /** The rows of a repository are those of its forge's one source. */
  lemma {:induction false} FromItsSource(answers: seq<Answer>, p: Part, n: nat, earlier: Earlier, had: set<Forge>, k: RepoKey, i: nat)
    requires Sound(answers) && i < |answers| && answers[i].forge == k.forge
    ensures At(AllRows(answers, p, n, earlier, had), k) == At(RowsFrom(answers[i], p, n, earlier, had), k)
    ensures Carried(answers, p, had, k) <==> Carries(answers[i], p, had, k)
  {
    var most, last := answers[..|answers| - 1], answers[|answers| - 1];
    FilterConcat(AllRows(most, p, n, earlier, had), RowsFrom(last, p, n, earlier, Good(most, had)), Of(k));
    if i == |answers| - 1 {
      NoneFromOthers(most, p, n, earlier, had, k);
      RowsFromAt(last, p, n, earlier, Good(most, had), k);
      RowsFromAt(last, p, n, earlier, had, k);
      assert k.forge in Good(most, had) <==> k.forge in had;
    } else {
      FromItsSource(most, p, n, earlier, had, k, i);
      NoneFromAnother(last, p, n, earlier, Good(most, had), k);
    }
  }

  /** A repository carried over is gathered as its snapshot had it, row for row. */
  lemma CarriedAsItWas(answers: seq<Answer>, p: Part, n: nat, earlier: Earlier, had: set<Forge>, k: RepoKey)
    requires Sound(answers) && Carried(answers, p, had, k)
    ensures At(AllRows(answers, p, n, earlier, had), k) == At(Get(TakenFrom(answers, had, earlier, k), p), k)
  {
    hide Filter, AllRows, RowsFrom, Proper, Carried;
    if forall i | 0 <= i < |answers| :: answers[i].forge != k.forge {
      NoneFromOthers(answers, p, n, earlier, had, k);
      assert false;
    } else {
      var i :| 0 <= i < |answers| && answers[i].forge == k.forge;
      FromItsSource(answers, p, n, earlier, had, k, i);
      RowsFromAt(answers[i], p, n, earlier, had, k);
      assert FromStart(answers, had, k.forge) <==> answers[i].HeldBack? && (answers[i].reachable || k.forge !in had);
    }
  }

  lemma {:induction false} ReachedBy(answers: seq<Answer>, i: nat)
    requires Sound(answers) && i < |answers|
    ensures answers[i].forge in Reached(answers) <==> answers[i].reachable
  {
    var most, last := answers[..|answers| - 1], answers[|answers| - 1];
    if i == |answers| - 1 {
      ReachedOnly(most, last.forge);
    } else {
      ReachedBy(most, i);
    }
  }

  lemma {:induction false} ReachedOnly(answers: seq<Answer>, f: Forge)
    requires forall i | 0 <= i < |answers| :: answers[i].forge != f
    ensures f !in Reached(answers)
  {
    if answers != [] {
      ReachedOnly(answers[..|answers| - 1], f);
    }
  }

  /** A pull request that is not carried over was read, and its forge answered. */
  lemma ReadOrCarried(answers: seq<Answer>, n: nat, earlier: Earlier, had: set<Forge>, r: Row)
    requires Sound(answers) && r in AllRows(answers, Prs, n, earlier, had) && !Carried(answers, Prs, had, r.id.home)
    ensures r.id.home.forge in Reached(answers) && r.id in RowsRead(answers)
  {
    hide Filter, AllRows, RowsFrom, Distinct, Carried, Reached;
    var k := r.id.home;
    InAt(AllRows(answers, Prs, n, earlier, had), r);
    if forall i | 0 <= i < |answers| :: answers[i].forge != k.forge {
      NoneFromOthers(answers, Prs, n, earlier, had, k);
      assert false;
    } else {
      var i :| 0 <= i < |answers| && answers[i].forge == k.forge;
      FromItsSource(answers, Prs, n, earlier, had, k, i);
      RowsFromAt(answers[i], Prs, n, earlier, had, k);
      var own := At(Answered(answers[i], Prs), k);
      var j :| 0 <= j < |own| && Map(own, Stamp(n))[j] == r;
      FilterHas(Answered(answers[i], Prs), Of(k));
      assert own[j] in answers[i].prs && answers[i] in answers;
      ReachedBy(answers, i);
    }
  }

  // ---- History: what happened since the rows were taken ----

  /** The repositories a merge or a poll wrote or that lost a pull request, and the boxes set. */
  datatype Since = Since(written: set<RepoKey>, ticked: set<Id>)

  const NOTHING_YET := Since({}, {})

  /**
   * A run with the two snapshots the refresh in flight carries rows over from: `start` and what
   * happened since, `now` and what happened since. `held` are the marks the refresh left pull
   * requests out by, `settled` the pull requests marked after, but for those unmarked again.
   */
  datatype Trace = Trace(
    s: State, earlier: Earlier, sinceStart: Since, sinceNow: Since, held: map<Id, int>, settled: set<Id>)

  function Writes(s: State, e: Event): set<RepoKey> {
    match e
    case RepoLands(k, prs, issues, _, _) => if k in s.reading && AllOf(prs, k) && AllOf(issues, k) then {k} else {}
    case PollLands(n, pulls, closed, order, _) => if n in s.polling && IsPoll(pulls, closed, order) then set k | k in order else {}
    case Leaves(id) => if id in s.leaving then {id.home} else {}
    case _ => {}
  }

  function After(since: Since, s: State, e: Event): Since {
    Since(since.written + Writes(s, e), since.ticked + if e.Ticks? then {e.id} else {})
  }

  /** The repositories with a pull request that is left out as settled. */
  function LeftOut(snap: Snapshot, held: map<Id, int>): set<RepoKey> {
    set r | r in snap.prs && r.id in held :: r.id.home
  }

  function Looks(t: Trace): Trace {
    t.(s := OnFullLooks(t.s), earlier := t.earlier.(start := t.s.board.snap), sinceStart := NOTHING_YET)
  }

  function Assembles(t: Trace, answers: seq<Answer>, oldest: int): Trace {
    var u, now := OnFullAssembles(t.s, answers, oldest), t.s.board.snap;
    var held := u.board.settled;
    Trace(u, t.earlier.(now := now), t.sinceStart.(written := t.sinceStart.written + LeftOut(t.earlier.start, held)),
          Since(LeftOut(now, held), {}), held, {})
  }

  function Next(t: Trace, e: Event): Trace {
    if e.FullLooks? && t.s.full.Started? then Looks(t)
    else if e.FullAssembles? && t.s.full.Looked? then Assembles(t, e.answers, e.oldest)
    else
      t.(s := Step(t.s, e), sinceStart := After(t.sinceStart, t.s, e), sinceNow := After(t.sinceNow, t.s, e),
         settled := if e.Settles? then t.settled + {e.id} else if e.Unsettles? then t.settled - {e.id} else t.settled)
  }

  const BEGIN := Trace(START, Earlier(EMPTY, EMPTY), NOTHING_YET, NOTHING_YET, map[], {})

  function From(t: Trace, events: seq<Event>): Trace {
    if events == [] then t
    else Next(From(t, events[..|events| - 1]), events[|events| - 1])
  }

  function Run(events: seq<Event>): Trace {
    From(BEGIN, events)
  }

  /** The history changes nothing about the run. */
  lemma {:induction false} HistoryOnly(events: seq<Event>)
    ensures Run(events).s == Exec(events)
  {
    hide Step, OnFullAssembles, OnFullLooks;
    if events != [] {
      HistoryOnly(events[..|events| - 1]);
      NextSteps(Run(events[..|events| - 1]), events[|events| - 1]);
    }
  }

  lemma NextSteps(t: Trace, e: Event)
    ensures Next(t, e).s == Step(t.s, e)
  {
  }

  // ---- What one step leaves alone ----

  /** Two snapshots hold the same rows of `k`, boxes aside. */
  ghost predicate Still(a: Snapshot, b: Snapshot, p: Part, k: RepoKey) {
    Same(Map(At(Get(a, p), k), Unboxed()), Map(At(Get(b, p), k), Unboxed()))
  }

  lemma SharesStill(b: Board, n: nat, shares: seq<Share>, oldest: int, p: Part, k: RepoKey)
    requires AllFit(shares) && !Names(shares, k)
    ensures Still(MergedFrom(b, n, shares, oldest).snap, b.snap, p, k)
  {
    hide MergedFrom;
    OthersUntouched(b, n, shares, oldest, k);
    MapSame(At(Get(MergedFrom(b, n, shares, oldest).snap, p), k), At(Get(b.snap, p), k), Unboxed());
  }

  lemma TicksStill(b: Board, id: Id, ticked: bool, fetches: nat, p: Part, k: RepoKey)
    ensures Still(Ticked(b, id, ticked, fetches).snap, b.snap, p, k)
  {
    var after := Ticked(b, id, ticked, fetches);
    BoxedAt(b.snap.prs, Unboxed(), k);
    BoxedAt(after.snap.prs, Unboxed(), k);
    assert Map(after.snap.prs, Unboxed()) == Map(b.snap.prs, Unboxed());
  }

  lemma LeavesStill(rows: seq<Row>, id: Id, k: RepoKey)
    requires k != id.home
    ensures At(Filter(rows, NotIn({id})), k) == At(rows, k)
  {
    FilterTwice(rows, NotIn({id}), Of(k));
  }

  /** A step that does not write `k` leaves its rows as they were. */
  lemma UnwrittenStill(s: State, e: Event, p: Part, k: RepoKey)
    requires !e.FullLands? && k !in Writes(s, e)
    ensures Still(Step(s, e).board.snap, s.board.snap, p, k)
  {
    match e
    case RepoLands(j, prs, issues, whole, oldest) =>
      if j in s.reading && AllOf(prs, j) && AllOf(issues, j) {
        SharesStill(s.board, s.reading[j], [RepoShare(j, s.reading[j], prs, issues, whole)], oldest, p, k);
      }
    case PollLands(n, pulls, closed, order, oldest) =>
      if n in s.polling && IsPoll(pulls, closed, order) {
        SharesStill(s.board, n, PollShares(n, pulls, closed, order), oldest, p, k);
      }
    case Ticks(id, ticked) => TicksStill(s.board, id, ticked, s.fetches, p, k);
    case Leaves(id) =>
      if id in s.leaving && p.Prs? {
        LeavesStill(s.board.snap.prs, id, k);
      }
    case _ =>
  }

  // ---- What is known of a refresh in flight ----

  ghost predicate StillSince(s: State, taken: Snapshot, since: Since) {
    forall p, k | k !in since.written :: Still(s.board.snap, taken, p, k)
  }

  function LessSettled(all: Snapshot, held: map<Id, int>): Snapshot {
    Snapshot(SortByRecency(Unsettled(all.prs, held)), SortByRecency(all.issues), all.repos)
  }

  /** What is about to land was made from the two snapshots, which differ from the board where it was written. */
  ghost predicate Known(t: Trace) {
    && (t.s.full.Looked? ==> t.s.full.start == t.earlier.start)
    && (t.s.full.Looked? || t.s.full.Ready? ==> StillSince(t.s, t.earlier.start, t.sinceStart))
    && (t.s.full.Ready? ==>
          && StillSince(t.s, t.earlier.now, t.sinceNow)
          && LeftOut(t.earlier.start, t.held) <= t.sinceStart.written && LeftOut(t.earlier.now, t.held) <= t.sinceNow.written
          && t.s.full.snap == LessSettled(Gathered(t.s.full.answers, t.s.full.n, t.earlier, t.s.full.had), t.held))
  }

  lemma StillGoesOn(s: State, e: Event, taken: Snapshot, since: Since)
    requires !e.FullLands? && StillSince(s, taken, since)
    ensures StillSince(Step(s, e), taken, After(since, s, e))
  {
    hide Step, Still;
    forall p, k | k !in After(since, s, e).written ensures Still(Step(s, e).board.snap, taken, p, k) {
      UnwrittenStill(s, e, p, k);
      StillTwice(Step(s, e).board.snap, s.board.snap, taken, p, k);
    }
  }

  lemma StillTwice(a: Snapshot, b: Snapshot, c: Snapshot, p: Part, k: RepoKey)
    requires Still(a, b, p, k) && Still(b, c, p, k)
    ensures Still(a, c, p, k)
  {
  }

  /** Everything else leaves the refresh in flight as it is. */
  lemma FullStays(s: State, e: Event)
    requires !e.FullLands?
    requires (e.FullBegins? ==> !s.full.Idle?) && (e.FullLooks? ==> !s.full.Started?) && (e.FullAssembles? ==> !s.full.Looked?)
    ensures Step(s, e).full == s.full
  {
  }

  lemma NextKnown(t: Trace, e: Event)
    requires Known(t)
    ensures Known(Next(t, e))
  {
    hide StillSince, LessSettled, Gathered;
    if e.FullLooks? && t.s.full.Started? {
      StillNow(Looks(t).s, t.s.board.snap, NOTHING_YET);
    } else if e.FullAssembles? && t.s.full.Looked? {
      AssemblesKnown(t, e.answers, e.oldest);
    } else if e.FullBegins? && t.s.full.Idle? {
    } else if !e.FullLands? {
      FullStays(t.s, e);
      OtherKnown(t, e);
    } else if t.s.full.Looked? {
      FewerStill(t.s, Next(t, e).s, t.earlier.start, t.sinceStart, Next(t, e).sinceStart);
    }
  }

  lemma StillNow(s: State, taken: Snapshot, since: Since)
    requires s.board.snap == taken
    ensures StillSince(s, taken, since)
  {
  }

  lemma AssemblesKnown(t: Trace, answers: seq<Answer>, oldest: int)
    requires Known(t) && t.s.full.Looked?
    ensures Known(Assembles(t, answers, oldest))
  {
    hide StillSince, LessSettled, Gathered, Still;
    var u := Assembles(t, answers, oldest);
    StillNow(u.s, u.earlier.now, u.sinceNow);
    assert StillSince(u.s, u.earlier.start, u.sinceStart) by {
      FewerStill(t.s, u.s, t.earlier.start, t.sinceStart, u.sinceStart);
    }
    AssembledIs(answers, t.s.full.n, u.earlier, t.s.good, t.s.board.settled, oldest);
  }

  lemma FewerStill(s: State, u: State, taken: Snapshot, since: Since, more: Since)
    requires StillSince(s, taken, since) && u.board.snap == s.board.snap && since.written <= more.written
    ensures StillSince(u, taken, more)
  {
    hide Still;
  }

  lemma AssembledIs(answers: seq<Answer>, n: nat, earlier: Earlier, had: set<Forge>, settled: map<Id, int>, oldest: int)
    ensures var (snap, held) := Assembled(answers, n, earlier, had, settled, oldest);
            snap == LessSettled(Gathered(answers, n, earlier, had), held)
  {
  }

  lemma OtherKnown(t: Trace, e: Event)
    requires Known(t) && !e.FullLands? && Step(t.s, e).full == t.s.full
    requires !(e.FullLooks? && t.s.full.Started?) && !(e.FullAssembles? && t.s.full.Looked?)
    ensures Known(Next(t, e))
  {
    hide Step, StillSince, LessSettled, Gathered;
    if t.s.full.Looked? || t.s.full.Ready? {
      StillGoesOn(t.s, e, t.earlier.start, t.sinceStart);
    }
    if t.s.full.Ready? {
      StillGoesOn(t.s, e, t.earlier.now, t.sinceNow);
    }
  }

  lemma {:induction false} RunKnown(events: seq<Event>)
    ensures Known(Run(events))
  {
    hide Next;
    if events != [] {
      RunKnown(events[..|events| - 1]);
      NextKnown(Run(events[..|events| - 1]), events[|events| - 1]);
    }
  }

  // ---- What landing does to a repository carried over ----

  /** What happened since the rows of `k` were taken. */
  function SinceTaken(t: Trace, k: RepoKey): Since
    requires t.s.full.Ready?
  {
    if FromStart(t.s.full.answers, t.s.full.had, k.forge) then t.sinceStart else t.sinceNow
  }

  /** The rows of `k` as the refresh took them, less the pull requests it left out as settled. */
  function TakenRows(t: Trace, p: Part, k: RepoKey): seq<Row>
    requires t.s.full.Ready?
  {
    var snap := TakenFrom(t.s.full.answers, t.s.full.had, t.earlier, k);
    At(if p.Prs? then Unsettled(snap.prs, t.held) else snap.issues, k)
  }

  ghost predicate CarriesOver(t: Trace, p: Part, k: RepoKey) {
    t.s.full.Ready? && Sound(t.s.full.answers) && Carried(t.s.full.answers, p, t.s.full.had, k)
  }

  /** Whether a scoped merge numbered above the refresh wrote `k` last. */
  predicate Guards(s: State, k: RepoKey) {
    s.full.Ready? && k in s.board.scoped && s.board.scoped[k] > s.full.n
  }

  lemma UnsettledAt(prs: seq<Row>, held: map<Id, int>, k: RepoKey)
    ensures At(Unsettled(prs, held), k) == Filter(At(prs, k), NotIn(held.Keys))
  {
    FilterSwaps(prs, NotIn(held.Keys), Of(k));
  }

  lemma {:induction false} FilterSwaps<T>(xs: seq<T>, a: T -> bool, b: T -> bool)
    ensures Filter(Filter(xs, a), b) == Filter(Filter(xs, b), a)
  {
    if xs != [] {
      var most, last := xs[..|xs| - 1], xs[|xs| - 1];
      FilterSwaps(most, a, b);
      FilterLast(Filter(most, a), last, b);
      FilterLast(Filter(most, b), last, a);
      assert Filter(xs, a) == (if a(last) then Filter(most, a) + [last] else Filter(most, a));
      assert Filter(xs, b) == (if b(last) then Filter(most, b) + [last] else Filter(most, b));
    }
  }

  lemma BringsTakenRows(t: Trace, p: Part, k: RepoKey)
    requires Known(t) && CarriesOver(t, p, k)
    ensures Same(At(Get(t.s.full.snap, p), k), TakenRows(t, p, k))
  {
    hide StillSince;
    var full := t.s.full;
    var all := Gathered(full.answers, full.n, t.earlier, full.had);
    CarriedAsItWas(full.answers, p, full.n, t.earlier, full.had, k);
    if p.Prs? {
      SortAt(Unsettled(all.prs, t.held), k);
      UnsettledAt(all.prs, t.held, k);
      UnsettledAt(TakenFrom(full.answers, full.had, t.earlier, k).prs, t.held, k);
    } else {
      SortAt(all.issues, k);
    }
  }

  /** Where no newer merge wrote, landing takes a repository carried over back to the rows that were taken. */
  lemma LandingTakesBack(t: Trace, p: Part, k: RepoKey)
    requires Known(t) && CarriesOver(t, p, k) && !Guards(t.s, k)
    ensures Same(Map(At(Get(OnFullLands(t.s).board.snap, p), k), Unboxed()), Map(TakenRows(t, p, k), Unboxed()))
  {
    hide Known;
    BringsTakenRows(t, p, k);
    LandedAt(t.s.board, t.s.full.n, t.s.full.snap, t.s.full.reached, t.s.full.read, p, k);
    MapSame(At(Get(t.s.full.snap, p), k), TakenRows(t, p, k), Unboxed());
  }

  lemma TakenStill(t: Trace, p: Part, k: RepoKey)
    requires Known(t) && t.s.full.Ready? && k !in SinceTaken(t, k).written
    ensures Same(Map(TakenRows(t, p, k), Unboxed()), Map(At(Get(t.s.board.snap, p), k), Unboxed()))
  {
    var snap := TakenFrom(t.s.full.answers, t.s.full.had, t.earlier, k);
    assert Still(t.s.board.snap, snap, p, k);
    if p.Prs? {
      UnsettledAt(snap.prs, t.held, k);
      FilterHas(snap.prs, Of(k));
      assert k !in LeftOut(snap, t.held);
      FilterAll(At(snap.prs, k), NotIn(t.held.Keys));
    }
  }

  /**
   * A repository the refresh carried over is left as it was when, since its rows were taken, no merge
   * or poll wrote it and it lost no pull request.
   */
  lemma UnwrittenIsLeftAlone(events: seq<Event>, p: Part, k: RepoKey)
    requires CarriesOver(Run(events), p, k) && k !in SinceTaken(Run(events), k).written
    ensures Still(OnFullLands(Run(events).s).board.snap, Run(events).s.board.snap, p, k)
  {
    hide Known, TakenRows, OnFullLands;
    var t := Run(events);
    RunKnown(events);
    if Guards(t.s, k) {
      GuardedStill(t.s, p, k);
    } else {
      LandingTakesBack(t, p, k);
      TakenStill(t, p, k);
    }
  }

  lemma GuardedStill(s: State, p: Part, k: RepoKey)
    requires Guards(s, k)
    ensures Still(OnFullLands(s).board.snap, s.board.snap, p, k)
  {
    LandedAt(s.board, s.full.n, s.full.snap, s.full.reached, s.full.read, p, k);
  }

  /**
   * Exactly: over every run, landing leaves a repository it carried over as it was when a merge
   * numbered above the refresh wrote it last, or when the board still holds the rows that were taken.
   */
  lemma LandingLeavesAloneIff(events: seq<Event>, p: Part, k: RepoKey)
    requires CarriesOver(Run(events), p, k)
    ensures var t := Run(events);
            Still(OnFullLands(t.s).board.snap, t.s.board.snap, p, k)
            <==> Guards(t.s, k) || Same(Map(At(Get(t.s.board.snap, p), k), Unboxed()), Map(TakenRows(t, p, k), Unboxed()))
  {
    hide Known, TakenRows, OnFullLands;
    var t := Run(events);
    RunKnown(events);
    if Guards(t.s, k) {
      GuardedStill(t.s, p, k);
    } else {
      LandingTakesBack(t, p, k);
    }
  }

  lemma NextKeepsTaken(t: Trace, e: Event, p: Part, k: RepoKey)
    requires t.s.full.Ready? && !e.FullLands?
    ensures var u := Next(t, e); u.s.full == t.s.full && u.earlier == t.earlier && u.held == t.held
  {
    FullStays(t.s, e);
  }

  lemma {:induction false} FromKeepsTaken(t: Trace, more: seq<Event>, p: Part, k: RepoKey)
    requires t.s.full.Ready? && FullLands !in more
    ensures var u := From(t, more); u.s.full == t.s.full && u.earlier == t.earlier && u.held == t.held
  {
    hide Next;
    if more != [] {
      FromKeepsTaken(t, more[..|more| - 1], p, k);
      NextKeepsTaken(From(t, more[..|more| - 1]), more[|more| - 1], p, k);
    }
  }

  lemma {:induction false} FromKnown(t: Trace, more: seq<Event>)
    requires Known(t)
    ensures Known(From(t, more))
  {
    hide Next, Known;
    if more != [] {
      FromKnown(t, more[..|more| - 1]);
      NextKnown(From(t, more[..|more| - 1]), more[|more| - 1]);
    }
  }

  /**
   * And a write since is undone: whatever happens to a repository that was as it had been taken, and
   * that no merge numbered above the refresh writes last, landing takes it back to what it was before;
   * so landing leaves alone only what comes to the same rows.
   */
  lemma AWriteSinceIsUndone(events: seq<Event>, more: seq<Event>, p: Part, k: RepoKey)
    requires FullLands !in more
    requires var t := Run(events); CarriesOver(t, p, k) && k !in SinceTaken(t, k).written
    requires !Guards(From(Run(events), more).s, k)
    ensures var t, u := Run(events), From(Run(events), more);
            && u.s.full == t.s.full
            && Still(OnFullLands(u.s).board.snap, t.s.board.snap, p, k)
            && (Still(OnFullLands(u.s).board.snap, u.s.board.snap, p, k) <==> Still(u.s.board.snap, t.s.board.snap, p, k))
  {
    hide Known, OnFullLands, Next, From;
    var t, u := Run(events), From(Run(events), more);
    RunKnown(events);
    FromKnown(t, more);
    FromKeepsTaken(t, more, p, k);
    LandingTakesBack(u, p, k);
    TakenStill(t, p, k);
  }

  // ---- A repository's own row ----

  ghost predicate RowsUpto(repos: seq<RepoRow>, n: nat) {
    forall r | r in repos :: r.stamp <= n
  }

  /** Only a full refresh reads repository rows, so none on the board is newer than the one in flight. */
  ghost predicate RepoRowsKnown(s: State) {
    && RowsUpto(s.board.snap.repos, s.fetches)
    && (!s.full.Idle? ==> s.full.n <= s.fetches && RowsUpto(s.board.snap.repos, s.full.n))
    && (s.full.Looked? ==> RowsUpto(s.full.start.repos, s.full.n))
    && (s.full.Ready? ==> RowsUpto(s.full.snap.repos, s.full.n))
  }

  lemma {:induction false} RepoRowsUpto(answers: seq<Answer>, n: nat, earlier: Earlier, had: set<Forge>)
    requires RowsUpto(earlier.start.repos, n) && RowsUpto(earlier.now.repos, n)
    ensures RowsUpto(AllRepos(answers, n, earlier, had), n)
  {
    if answers != [] {
      var most, last := answers[..|answers| - 1], answers[|answers| - 1];
      RepoRowsUpto(most, n, earlier, had);
      FilterHas(earlier.now.repos, RepoOfForge(last.forge));
      FilterHas(earlier.start.repos, RepoOfForge(last.forge));
    }
  }

  lemma LandedUpto(b: Board, n: nat, snap: Snapshot, reached: set<Forge>, read: set<Id>)
    requires RowsUpto(snap.repos, n) && RowsUpto(b.snap.repos, n)
    ensures RowsUpto(Landed(b, n, snap, reached, read).snap.repos, n)
  {
    forall i | 0 <= i < |snap.repos| ensures Landed(b, n, snap, reached, read).snap.repos[i].stamp <= n {
      LastOfHas(b.snap.repos, snap.repos[i].home);
    }
  }

  /** A merge changes a repository's own row only by clearing its stale mark. */
  lemma MergedUpto(b: Board, m: nat, shares: seq<Share>, oldest: int, n: nat)
    requires RowsUpto(b.snap.repos, n)
    ensures RowsUpto(MergedFrom(b, m, shares, oldest).snap.repos, n)
  {
    hide MergedShares;
  }

  lemma StepKeepsRepoRows(s: State, e: Event)
    requires RepoRowsKnown(s)
    ensures RepoRowsKnown(Step(s, e))
  {
    hide MergedFrom, Landed, MergedShares;
    match e
    case FullAssembles(answers, oldest) =>
      if s.full.Looked? {
        RepoRowsUpto(answers, s.full.n, Earlier(s.full.start, s.board.snap), s.good);
      }
    case FullLands =>
      if s.full.Ready? {
        LandedUpto(s.board, s.full.n, s.full.snap, s.full.reached, s.full.read);
      }
    case RepoLands(k, prs, issues, whole, oldest) =>
      if k in s.reading && AllOf(prs, k) && AllOf(issues, k) {
        var shares := [RepoShare(k, s.reading[k], prs, issues, whole)];
        MergedUpto(s.board, s.reading[k], shares, oldest, s.fetches);
        if !s.full.Idle? { MergedUpto(s.board, s.reading[k], shares, oldest, s.full.n); }
      }
    case PollLands(n, pulls, closed, order, oldest) =>
      if n in s.polling && IsPoll(pulls, closed, order) {
        MergedUpto(s.board, n, PollShares(n, pulls, closed, order), oldest, s.fetches);
        if !s.full.Idle? { MergedUpto(s.board, n, PollShares(n, pulls, closed, order), oldest, s.full.n); }
      }
    case _ =>
  }

  lemma {:induction false} ExecRepoRows(events: seq<Event>)
    ensures RepoRowsKnown(Exec(events))
  {
    hide Step;
    if events != [] {
      ExecRepoRows(events[..|events| - 1]);
      StepKeepsRepoRows(Exec(events[..|events| - 1]), events[|events| - 1]);
    }
  }

  /**
   * Landing never takes a repository's own row back either: where a newer merge wrote, and so may have
   * cleared the stale mark, the row stays the board's, and elsewhere a row the refresh read is at least
   * as new as every row of that repository it replaces.
   */
  lemma RepoRowNeverGoesBack(s: State, i: nat)
    requires Reachable(s) && s.full.Ready? && i < |s.full.snap.repos|
    ensures var was, after := s.board.snap.repos, OnFullLands(s).board.snap.repos;
            && |after| == |s.full.snap.repos| && after[i].home == s.full.snap.repos[i].home
            && (if Guards(s, after[i].home) && (exists r | r in was :: r.home == after[i].home) then after[i] in was
                else after[i] == s.full.snap.repos[i])
            && (after[i].stamp == s.full.n ==> forall r | r in was && r.home == after[i].home :: r.stamp <= after[i].stamp)
  {
    var events :| s == Exec(events);
    ExecRepoRows(events);
    LandedRepoRows(s.board, s.full.n, s.full.snap, s.full.reached, s.full.read, i);
    LastOfHas(s.board.snap.repos, s.full.snap.repos[i].home);
  }
}
