/** A forge that cannot be reached, over every run: what it last had is carried over. */
module Outages {
  import opened Prelude
  import opened Seqs
  import opened Rows
  import opened Merge
  import opened Refresh
  import opened RefreshRuns
  import opened Taken
  import opened TickRuns

  // ---- Which forges have answered, by event positions ----

  /** A refresh that had looked assembles at `i`. */
  ghost predicate AssemblesAt(events: seq<Event>, i: nat)
    requires i < |events|
  {
    events[i].FullAssembles? && StateAt(events, i).full.Looked?
  }

  /** It has not landed by the end. */
  ghost predicate Pending(events: seq<Event>, i: nat) {
    i < |events| && AssemblesAt(events, i) && forall m | i < m < |events| :: !events[m].FullLands?
  }

  /** It lands at `j`. */
  ghost predicate LandsAt(events: seq<Event>, i: nat, j: nat) {
    i < j < |events| && AssemblesAt(events, i) && events[j].FullLands? && forall m | i < m < j :: !events[m].FullLands?
  }

  ghost predicate Reaches(answers: seq<Answer>, f: Forge) {
    exists a | a in answers :: a.reachable && a.forge == f
  }

  /** The forge answered in a refresh that has landed. */
  ghost predicate HasAnswered(events: seq<Event>, f: Forge) {
    exists i: nat, j: nat :: LandsAt(events, i, j) && Reaches(events[i].answers, f)
  }

  lemma PrefixStates(events: seq<Event>, i: nat)
    requires events != [] && i < |events|
    ensures StateAt(events, i) == StateAt(events[..|events| - 1], i)
  {
    assert events[..|events| - 1][..i] == events[..i];
  }

  lemma WholeState(events: seq<Event>)
    ensures StateAt(events, |events|) == Exec(events)
  {
    assert events[..|events|] == events;
  }

  lemma PendingNext(events: seq<Event>, i: nat)
    requires events != [] && i < |events| - 1
    ensures Pending(events, i) <==> Pending(events[..|events| - 1], i) && !events[|events| - 1].FullLands?
  {
    PrefixStates(events, i);
  }

  lemma LandsNext(events: seq<Event>, i: nat, j: nat)
    requires events != []
    ensures j < |events| - 1 ==> (LandsAt(events, i, j) <==> LandsAt(events[..|events| - 1], i, j))
    ensures j == |events| - 1 ==> (LandsAt(events, i, j) <==> Pending(events[..|events| - 1], i) && events[j].FullLands?)
  {
    if i < |events| { PrefixStates(events, i); }
  }

  /** A refresh is ready to land exactly when it has assembled and not landed since. */
  lemma {:induction false} ReadyIsPending(events: seq<Event>, i: nat)
    requires Pending(events, i)
    ensures Exec(events).full.Ready? && Exec(events).full.answers == events[i].answers
  {
    var most, last := events[..|events| - 1], events[|events| - 1];
    if i == |events| - 1 {
      PrefixStates(events, i);
      WholeState(most);
    } else {
      PendingNext(events, i);
      ReadyIsPending(most, i);
      FullStays(Exec(most), last);
    }
  }

  lemma {:induction false} PendingIsReady(events: seq<Event>) returns (i: nat)
    requires Exec(events).full.Ready?
    ensures Pending(events, i)
  {
    var most, last := events[..|events| - 1], events[|events| - 1];
    i := 0;
    if last.FullAssembles? && Exec(most).full.Looked? {
      i := |events| - 1;
      PrefixStates(events, i);
      WholeState(most);
    } else {
      NotReadied(Exec(most), last);
      i := PendingIsReady(most);
      PendingNext(events, i);
    }
  }

  lemma NotReadied(s: State, e: Event)
    requires Step(s, e).full.Ready? && !(e.FullAssembles? && s.full.Looked?)
    ensures s.full.Ready? && !e.FullLands?
  {
  }

  /** What a refresh takes as answered before is what had been by the time it assembled, and still is. */
  lemma {:induction false} HadIsGood(events: seq<Event>)
    ensures Exec(events).full.Ready? ==> Exec(events).full.had == Exec(events).good
  {
    hide Assembled, Landed, MergedFrom;
    if events != [] {
      HadIsGood(events[..|events| - 1]);
    }
  }

  lemma GoodNext(s: State, e: Event)
    ensures Step(s, e).good == if e.FullLands? && s.full.Ready? then Good(s.full.answers, s.full.had) else s.good
  {
  }

  /** Over every run: the forges known to have answered are exactly those that did in a refresh that landed. */
  lemma {:induction false} GoodIff(events: seq<Event>, f: Forge)
    ensures f in Exec(events).good <==> HasAnswered(events, f)
  {
    hide Step;
    if events != [] {
      var most, last := events[..|events| - 1], events[|events| - 1];
      GoodIff(most, f);
      GoodNext(Exec(most), last);
      HadIsGood(most);
      if HasAnswered(most, f) {
        var i: nat, j: nat :| LandsAt(most, i, j) && Reaches(most[i].answers, f);
        LandsNext(events, i, j);
      }
      if last.FullLands? && Exec(most).full.Ready? && Reaches(Exec(most).full.answers, f) {
        var i := PendingIsReady(most);
        ReadyIsPending(most, i);
        LandsNext(events, i, |events| - 1);
        assert LandsAt(events, i, |events| - 1) && Reaches(events[i].answers, f);
      }
      if HasAnswered(events, f) {
        var i: nat, j: nat :| LandsAt(events, i, j) && Reaches(events[i].answers, f);
        LandsNext(events, i, j);
        if j == |events| - 1 {
          ReadyIsPending(most, i);
          assert Reaches(Exec(most).full.answers, f);
        } else {
          assert LandsAt(most, i, j) && Reaches(most[i].answers, f);
        }
      }
      if Exec(most).full.Ready? { GoodAdds(Exec(most), f); }
    }
  }

  lemma GoodAdds(s: State, f: Forge)
    requires s.full.Ready?
    ensures f in Good(s.full.answers, s.full.had) <==> f in s.full.had || Reaches(s.full.answers, f)
  {
  }

  // ---- What a refresh assembles for a forge it could not reach, or did not ask ----

  lemma CarriedIn(answers: seq<Answer>, p: Part, n: nat, earlier: Earlier, had: set<Forge>, a: Answer, r: Row)
    requires a in answers && r.id.home.forge == a.forge
    requires if a.HeldBack? && (a.reachable || a.forge !in had) then r in Get(earlier.start, p)
             else !a.reachable && a.forge in had && r in Get(earlier.now, p)
    requires forall i, j | 0 <= i < j < |answers| :: answers[i].forge != answers[j].forge
    ensures r in AllRows(answers, p, n, earlier, had)
  {
    var i :| 0 <= i < |answers| && answers[i] == a;
    assert a.forge in Good(answers[..i], had) <==> a.forge in had;
    NothingIsDropped(answers, p, n, earlier, had, i);
  }

  lemma {:induction false} NoReposFromOthers(answers: seq<Answer>, n: nat, earlier: Earlier, had: set<Forge>, f: Forge)
    requires forall a | a in answers :: a.forge != f && OwnRepos(a)
    ensures Filter(AllRepos(answers, n, earlier, had), RepoOfForge(f)) == []
  {
    if answers != [] {
      var most, last := answers[..|answers| - 1], answers[|answers| - 1];
      NoReposFromOthers(most, n, earlier, had, f);
      NoReposFromAnother(last, n, earlier, Good(most, had), f);
      FilterConcat(AllRepos(most, n, earlier, had), ReposFrom(last, n, earlier, Good(most, had)), RepoOfForge(f));
    }
  }

  /** A source names repositories of its own forge. */
  predicate OwnRepos(a: Answer) {
    a.Asked? ==> forall r | r in a.repos :: r.home.forge == a.forge
  }

  lemma ReposAreOwn(a: Answer, n: nat, earlier: Earlier, good: set<Forge>)
    requires OwnRepos(a)
    ensures forall r | r in ReposFrom(a, n, earlier, good) :: r.home.forge == a.forge
  {
    FilterHas(earlier.now.repos, RepoOfForge(a.forge));
    FilterHas(earlier.start.repos, RepoOfForge(a.forge));
  }

  lemma NoReposFromAnother(a: Answer, n: nat, earlier: Earlier, good: set<Forge>, f: Forge)
    requires a.forge != f && OwnRepos(a)
    ensures Filter(ReposFrom(a, n, earlier, good), RepoOfForge(f)) == []
  {
    ReposAreOwn(a, n, earlier, good);
    FilterNone(ReposFrom(a, n, earlier, good), RepoOfForge(f));
  }

  /** The repository rows of a forge are those of its one source. */
  lemma {:induction false} ReposOfItsSource(answers: seq<Answer>, n: nat, earlier: Earlier, had: set<Forge>, i: nat)
    requires i < |answers| && forall a | a in answers :: OwnRepos(a)
    requires forall i, j | 0 <= i < j < |answers| :: answers[i].forge != answers[j].forge
    ensures Filter(AllRepos(answers, n, earlier, had), RepoOfForge(answers[i].forge)) == ReposFrom(answers[i], n, earlier, had)
  {
    var most, last, f := answers[..|answers| - 1], answers[|answers| - 1], answers[i].forge;
    FilterConcat(AllRepos(most, n, earlier, had), ReposFrom(last, n, earlier, Good(most, had)), RepoOfForge(f));
    if i == |answers| - 1 {
      forall a | a in most ensures a.forge != f {
        var j :| 0 <= j < |most| && most[j] == a;
        assert answers[j].forge != answers[i].forge;
      }
      NoReposFromOthers(most, n, earlier, had, f);
      ReposAreOwn(last, n, earlier, Good(most, had));
      FilterAll(ReposFrom(last, n, earlier, Good(most, had)), RepoOfForge(f));
      assert f in Good(most, had) <==> f in had;
    } else {
      ReposOfItsSource(most, n, earlier, had, i);
      NoReposFromAnother(last, n, earlier, Good(most, had), f);
    }
  }

  /**
   * The repository rows a refresh comes to: what the board had of a forge that is not reached but has
   * answered before, what the start had of one held back, and what the source said of one it asked,
   * each marked stale where part of the repository failed.
   */
  lemma RepoRowsAssembled(answers: seq<Answer>, n: nat, earlier: Earlier, had: set<Forge>, i: nat)
    requires i < |answers| && forall a | a in answers :: OwnRepos(a)
    requires forall i, j | 0 <= i < j < |answers| :: answers[i].forge != answers[j].forge
    ensures var a := answers[i]; var rows := Filter(AllRepos(answers, n, earlier, had), RepoOfForge(a.forge));
      && (!a.reachable && a.forge in had ==> rows == Filter(earlier.now.repos, RepoOfForge(a.forge)))
      && (a.HeldBack? && (a.reachable || a.forge !in had) ==> rows == Filter(earlier.start.repos, RepoOfForge(a.forge)))
      && (a.Asked? && a.reachable ==>
            && |rows| == |a.repos|
            && forall j | 0 <= j < |rows| ::
                 && rows[j].home == a.repos[j].home && rows[j].stamp == n
                 && (rows[j].stale <==> a.repos[j].stale || exists x | x in a.failed :: RepoKey(a.forge, x.repo) == a.repos[j].home))
  {
    ReposOfItsSource(answers, n, earlier, had, i);
  }

  // ---- The theorem ----

  /** Every row of `from` that is of forge `f` is in what was assembled, but for the settled. */
  ghost predicate AllKept(from: Snapshot, to: Snapshot, settled: map<Id, int>, f: Forge) {
    && (forall r | r in from.prs && r.id.home.forge == f :: r in to.prs || r.id in settled)
    && (forall r | r in from.issues && r.id.home.forge == f :: r in to.issues)
    && (forall r | r in from.repos && r.home.forge == f :: r in to.repos)
  }

  lemma AssembledHas(answers: seq<Answer>, n: nat, earlier: Earlier, had: set<Forge>, settled: map<Id, int>, oldest: int)
    ensures var (snap, held) := Assembled(answers, n, earlier, had, settled, oldest);
      var all := Gathered(answers, n, earlier, had);
      && (forall r :: r in snap.prs <==> r in all.prs && r.id !in held)
      && (forall r :: r in snap.issues <==> r in all.issues)
      && snap.repos == all.repos
      && (forall id :: id in held <==> id in settled && oldest <= settled[id] && id in Listed(all.prs))
  {
    var all := Gathered(answers, n, earlier, had);
    var held := Held(settled, Listed(all.prs), None, oldest);
    FilterHas(all.prs, NotIn(held.Keys));
    SortHas(Unsettled(all.prs, held));
    SortHas(all.issues);
  }

  lemma KeptWhole(answers: seq<Answer>, n: nat, earlier: Earlier, had: set<Forge>, settled: map<Id, int>, oldest: int, i: nat)
    requires i < |answers| && forall a | a in answers :: OwnRepos(a)
    requires forall i, j | 0 <= i < j < |answers| :: answers[i].forge != answers[j].forge
    ensures var (snap, held) := Assembled(answers, n, earlier, had, settled, oldest); var a := answers[i];
      && (!a.reachable && a.forge in had ==> AllKept(earlier.now, snap, held, a.forge))
      && (a.HeldBack? && (a.reachable || a.forge !in had) ==> AllKept(earlier.start, snap, held, a.forge))
  {
    hide Assembled, AllRows, AllRepos;
    var (snap, held) := Assembled(answers, n, earlier, had, settled, oldest);
    var a := answers[i];
    AssembledHas(answers, n, earlier, had, settled, oldest);
    if (!a.reachable && a.forge in had) || a.HeldBack? {
      var from := if a.HeldBack? && (a.reachable || a.forge !in had) then earlier.start else earlier.now;
      forall r | r in from.prs && r.id.home.forge == a.forge ensures r in snap.prs || r.id in held {
        CarriedIn(answers, Prs, n, earlier, had, a, r);
      }
      forall r | r in from.issues && r.id.home.forge == a.forge ensures r in snap.issues {
        CarriedIn(answers, Issues, n, earlier, had, a, r);
      }
      RepoRowsAssembled(answers, n, earlier, had, i);
      FilterHas(from.repos, RepoOfForge(a.forge));
      FilterHas(AllRepos(answers, n, earlier, had), RepoOfForge(a.forge));
      assert forall r | r in from.repos && r.home.forge == a.forge :: r in Filter(AllRepos(answers, n, earlier, had), RepoOfForge(a.forge));
    }
  }

  /** The snapshot a refresh that has looked started from is the board at the position it looked. */
  lemma {:induction false} LookedAt(events: seq<Event>) returns (l: nat)
    requires Exec(events).full.Looked?
    ensures l < |events| && events[l].FullLooks? && StateAt(events, l).full.Started?
    ensures Exec(events).full.start == StateAt(events, l).board.snap
  {
    var most, last := events[..|events| - 1], events[|events| - 1];
    if last.FullLooks? && Exec(most).full.Started? {
      l := |events| - 1;
      PrefixStates(events, l);
      WholeState(most);
    } else {
      NotLooked(Exec(most), last);
      l := LookedAt(most);
      PrefixStates(events, l);
    }
  }

  lemma NotLooked(s: State, e: Event)
    requires Step(s, e).full.Looked? && !(e.FullLooks? && s.full.Started?)
    ensures s.full == Step(s, e).full
  {
  }

  /** One source a forge, which names repositories of its own. */
  ghost predicate OwnForges(answers: seq<Answer>) {
    && (forall a | a in answers :: OwnRepos(a))
    && (forall i, j | 0 <= i < j < |answers| :: answers[i].forge != answers[j].forge)
  }

  /**
   * A forge that answered in some refresh that landed, and that a later one cannot reach, loses nothing:
   * every pull request but the settled, every issue and every repository row the board has of it when
   * that refresh assembles is in what the refresh comes to.
   */
  lemma AnOutageLosesNothing(events: seq<Event>, f: Forge, i: nat, a: Answer)
    requires i < |events| && AssemblesAt(events, i) && HasAnswered(events[..i], f)
    requires OwnForges(events[i].answers) && a in events[i].answers && a.forge == f && !a.reachable
    ensures var s, u := StateAt(events, i), StateAt(events, i + 1);
      u.full.Ready? && AllKept(s.board.snap, u.full.snap, u.board.settled, f)
  {
    hide AllKept;
    GoodIff(events[..i], f);
    var s, answers := StateAt(events, i), events[i].answers;
    var m :| 0 <= m < |answers| && answers[m] == a;
    NextState(events, i);
    KeptWhole(answers, s.full.n, Earlier(s.full.start, s.board.snap), s.good, s.board.settled, events[i].oldest, m);
  }

  lemma HeldBackKept(events: seq<Event>, f: Forge, i: nat, a: Answer)
    requires i < |events| && AssemblesAt(events, i)
    requires OwnForges(events[i].answers) && a in events[i].answers && a.forge == f && a.HeldBack? && a.reachable
    ensures var s, u := StateAt(events, i), StateAt(events, i + 1);
      u.full.Ready? && AllKept(s.full.start, u.full.snap, u.board.settled, f)
  {
    hide AllKept;
    var s, answers := StateAt(events, i), events[i].answers;
    var m :| 0 <= m < |answers| && answers[m] == a;
    NextState(events, i);
    KeptWhole(answers, s.full.n, Earlier(s.full.start, s.board.snap), s.good, s.board.settled, events[i].oldest, m);
  }

  /** And one held back on its budget keeps everything the board had at the position `l` where the refresh looked. */
  lemma HoldingBackLosesNothing(events: seq<Event>, f: Forge, i: nat, a: Answer) returns (l: nat)
    requires i < |events| && AssemblesAt(events, i)
    requires OwnForges(events[i].answers) && a in events[i].answers && a.forge == f && a.HeldBack? && a.reachable
    ensures l < i && events[l].FullLooks? && StateAt(events, l).full.Started?
    ensures var u := StateAt(events, i + 1);
      u.full.Ready? && AllKept(StateAt(events, l).board.snap, u.full.snap, u.board.settled, f)
  {
    hide AllKept, Step, OwnForges;
    HeldBackKept(events, f, i, a);
    l := LookedAt(events[..i]);
    assert events[..i][..l] == events[..l];
  }
}
