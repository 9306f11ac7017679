/** Over every run both lists of the board are newest first. */
module Ordered {
  import opened Prelude
  import opened Seqs
  import opened Rows
  import opened Merge
  import opened Refresh
  import opened RefreshRuns

  lemma {:induction false} FilterOrdered(rows: seq<Row>, keep: Row -> bool)
    requires NewestFirst(rows)
    ensures NewestFirst(Filter(rows, keep))
  {
    if rows != [] {
      var most, last := rows[..|rows| - 1], rows[|rows| - 1];
      FilterOrdered(most, keep);
      FilterHas(most, keep);
      forall r | r in Filter(most, keep) ensures r.updatedAt >= last.updatedAt {
        var i :| 0 <= i < |most| && most[i] == r;
        assert rows[i] == r;
      }
      assert forall i | 0 <= i < |Filter(most, keep)| :: Filter(most, keep)[i] in Filter(most, keep);
    }
  }

  /** A change of anything but the time keeps the order. */
  lemma MapOrdered(rows: seq<Row>, f: Row -> Row)
    requires NewestFirst(rows) && forall r: Row :: f(r).updatedAt == r.updatedAt
    ensures NewestFirst(Map(rows, f))
  {
  }

  lemma {:induction false} MergeOrdered(b: Board, n: nat, shares: seq<Share>, oldest: int)
    requires Sorted(b.snap)
    ensures Sorted(MergedShares(b, n, shares, oldest).snap)
  {
    hide MergedShare, Sorted;
    if shares != [] {
      var most, last := shares[..|shares| - 1], shares[|shares| - 1];
      MergeOrdered(b, n, most, oldest);
      ShareSorts(MergedShares(b, n, most, oldest), n, last, oldest);
    }
  }

  lemma AssembledOrdered(answers: seq<Answer>, n: nat, earlier: Earlier, had: set<Forge>, settled: map<Id, int>, oldest: int)
    ensures Sorted(Assembled(answers, n, earlier, had, settled, oldest).0)
  {
  }

  lemma LandedOrdered(b: Board, n: nat, snap: Snapshot, reached: set<Forge>, read: set<Id>)
    requires Sorted(snap)
    ensures Sorted(Landed(b, n, snap, reached, read).snap)
  {
    MapOrdered(KeepNewer(snap, b.snap, Newer(b.scoped, n)).prs, Boxed(b.overrides, n, Forges(reached), Only(read)));
  }

  ghost predicate AllOrdered(s: State) {
    Sorted(s.board.snap) && (s.full.Ready? ==> Sorted(s.full.snap))
  }

  lemma StepOrdered(s: State, e: Event)
    requires AllOrdered(s)
    ensures AllOrdered(Step(s, e))
  {
    hide MergedShares, Assembled, Landed;
    match e
    case FullAssembles(answers, oldest) =>
      if s.full.Looked? {
        AssembledOrdered(answers, s.full.n, Earlier(s.full.start, s.board.snap), s.good, s.board.settled, oldest);
      }
    case FullLands =>
      if s.full.Ready? { LandedOrdered(s.board, s.full.n, s.full.snap, s.full.reached, s.full.read); }
    case RepoLands(k, prs, issues, whole, oldest) =>
      if k in s.reading { MergeOrdered(s.board, s.reading[k], [RepoShare(k, s.reading[k], prs, issues, whole)], oldest); }
    case PollLands(n, pulls, closed, order, oldest) =>
      MergeOrdered(s.board, n, PollShares(n, pulls, closed, order), oldest);
    case Leaves(id) => FilterOrdered(s.board.snap.prs, NotIn({id}));
    case _ =>
  }

  /** Whatever merges, polls, landings, ticks and settles there were, the board reads newest first. */
  lemma {:induction false} NewestFirstAlways(events: seq<Event>)
    ensures AllOrdered(Exec(events))
  {
    hide Step;
    if events != [] {
      NewestFirstAlways(events[..|events| - 1]);
      StepOrdered(Exec(events[..|events| - 1]), events[|events| - 1]);
    }
  }
}
