/** Automatic Dependabot rebases: what keeps a pass over the board from asking again and again. */
module Dependabots {
  import opened Prelude

  type Key = string

  datatype Ci = Failing | Succeeded | Unresolved

  /** A listed pull request, and whether the settings want it kept up to date. */
  datatype Pull = Pull(key: Key, behind: bool, draft: bool, dependabot: bool, wanted: bool, ci: Ci)

  /** What the hook remembers between passes, and history: every comment the forge accepted. */
  datatype State = State(watch: set<Key>, attempted: set<Key>, rebased: multiset<Key>, recreated: multiset<Key>)

  /**
   * One pass over a snapshot. `readable` says the settings could be read, `reached` how many pull
   * requests it got to before it was cancelled, and the two sets which comments the forge accepts.
   */
  datatype Pass = Pass(snap: seq<Pull>, readable: bool, reached: nat, rebaseTaken: set<Key>, recreateTaken: set<Key>)

  function ByKey(snap: seq<Pull>): (m: map<Key, Pull>)
    ensures forall k | k in m :: m[k] in snap && m[k].key == k
    ensures forall pr | pr in snap :: pr.key in m
  {
    if snap == [] then map[]
    else
      var most, last := snap[..|snap| - 1], snap[|snap| - 1];
      assert snap == most + [last];
      ByKey(most)[last.key := last]
  }

  function Open(snap: seq<Pull>): set<Key> {
    set pr | pr in snap :: pr.key
  }

  function BehindKeys(snap: seq<Pull>): set<Key> {
    set pr | pr in snap && pr.behind :: pr.key
  }

  /** Whether a watched pull request is still waited on. */
  predicate StillWatched(open: map<Key, Pull>, k: Key) {
    k in open && open[k].ci.Unresolved?
  }

  predicate Recreates(open: map<Key, Pull>, k: Key, taken: set<Key>) {
    k in open && open[k].ci.Failing? && k in taken
  }

  /** reconcileDependabotRebaseWatch. */
  function Reconciled(s: State, p: Pass): State {
    var open := ByKey(p.snap);
    s.(watch := (set k | k in s.watch && StillWatched(open, k)),
       recreated := s.recreated + multiset(set k | k in s.watch && Recreates(open, k, p.recreateTaken)))
  }

  /** pruneDependabotAttempts. */
  function Pruned(s: State, p: Pass): State {
    s.(attempted := s.attempted * BehindKeys(p.snap))
  }

  predicate Asks(s: State, p: Pass, pr: Pull) {
    pr.behind && !pr.draft && pr.wanted && pr.dependabot
    && pr.key !in s.watch && pr.key !in s.attempted && pr.key in p.rebaseTaken
  }

  /** rebaseDependabotPR, for one pull request of the pass. */
  function Asked(s: State, p: Pass, pr: Pull): State {
    if Asks(s, p, pr)
    then State(s.watch + {pr.key}, s.attempted + {pr.key}, s.rebased + multiset{pr.key}, s.recreated)
    else s
  }

  function AskedUpTo(s: State, p: Pass, n: nat): State
    requires n <= |p.snap|
  {
    if n == 0 then s else Asked(AskedUpTo(s, p, n - 1), p, p.snap[n - 1])
  }

  /** runAutoUpdateBranch, as far as Dependabot's pull requests go. */
  function Ran(s: State, p: Pass): State {
    var clean := Pruned(Reconciled(s, p), p);
    if !p.readable then clean else AskedUpTo(clean, p, Min(p.reached, |p.snap|))
  }

  lemma OneMore(ks: set<Key>, k: Key)
    requires k !in ks
    ensures multiset(ks + {k}) == multiset(ks) + multiset{k}
  {
  }

  class Hook {
    var dependabotWatch: set<Key>
    var dependabotAttempted: set<Key>
    ghost var rebased: multiset<Key>
    ghost var recreated: multiset<Key>

    ghost function View(): State
      reads this
    {
      State(dependabotWatch, dependabotAttempted, rebased, recreated)
    }

    constructor ()
      ensures View() == State({}, {}, multiset{}, multiset{})
    {
      dependabotWatch, dependabotAttempted, rebased, recreated := {}, {}, multiset{}, multiset{};
    }

    /** One watched pull request, against what the snapshot shows of it. */
    method ReconcileOne(open: map<Key, Pull>, k: Key, taken: set<Key>) returns (posted: bool)
      requires k in dependabotWatch
      modifies this
      ensures posted == Recreates(open, k, taken)
      ensures View() == State(if StillWatched(open, k) then old(dependabotWatch) else old(dependabotWatch) - {k},
                              old(dependabotAttempted), old(rebased), old(recreated) + (if posted then multiset{k} else multiset{}))
    {
      posted := false;
      if k !in open {
        dependabotWatch := dependabotWatch - {k};
      } else if open[k].ci == Failing {
        if k in taken {
          recreated := recreated + multiset{k};
          posted := true;
        }
        dependabotWatch := dependabotWatch - {k};
      } else if open[k].ci == Succeeded {
        dependabotWatch := dependabotWatch - {k};
      }
    }

    method Reconcile(p: Pass)
      modifies this
      ensures View() == Reconciled(old(View()), p)
    {
      hide StillWatched, Recreates;
      ghost var was := View();
      var open := ByKey(p.snap);
      var watched := dependabotWatch;
      ghost var posts: set<Key> := {};
      while watched != {}
        invariant watched <= was.watch
        invariant dependabotAttempted == was.attempted && rebased == was.rebased
        invariant forall k :: k in dependabotWatch <==> k in was.watch && (k in watched || StillWatched(open, k))
        invariant forall k :: k in posts <==> k in was.watch && k !in watched && Recreates(open, k, p.recreateTaken)
        invariant recreated == was.recreated + multiset(posts)
        decreases |watched|
      {
        var k :| k in watched;
        var posted := ReconcileOne(open, k, p.recreateTaken);
        watched := watched - {k};
        if posted {
          OneMore(posts, k);
          posts := posts + {k};
        }
      }
      assert dependabotWatch == Reconciled(was, p).watch;
      assert posts == set k | k in was.watch && Recreates(open, k, p.recreateTaken);
    }

    method Prune(p: Pass)
      modifies this
      ensures View() == Pruned(old(View()), p)
    {
      var behind: set<Key> := {};
      for i := 0 to |p.snap|
        invariant behind == BehindKeys(p.snap[..i])
        invariant View() == old(View())
      {
        assert p.snap[..i + 1] == p.snap[..i] + [p.snap[i]];
        if p.snap[i].behind {
          behind := behind + {p.snap[i].key};
        }
      }
      assert p.snap[..|p.snap|] == p.snap;
      dependabotAttempted := set k | k in dependabotAttempted && k in behind;
    }

    method Rebase(p: Pass, pr: Pull)
      modifies this
      ensures View() == Asked(old(View()), p, pr)
    {
      if !pr.behind || pr.draft || !pr.wanted || !pr.dependabot {
        return;
      }
      if pr.key in dependabotWatch || pr.key in dependabotAttempted || pr.key !in p.rebaseTaken {
        return;
      }
      rebased := rebased + multiset{pr.key};
      dependabotWatch := dependabotWatch + {pr.key};
      dependabotAttempted := dependabotAttempted + {pr.key};
    }

    method Run(p: Pass)
      modifies this
      ensures View() == Ran(old(View()), p)
    {
      hide Reconciled, Pruned, Asked, Asks;
      Reconcile(p);
      Prune(p);
      if !p.readable {
        return;
      }
      ghost var clean := View();
      var n := Min(p.reached, |p.snap|);
      for i := 0 to n
        invariant View() == AskedUpTo(clean, p, i)
      {
        Rebase(p, p.snap[i]);
      }
    }
  }

  // ---- Every run of passes ----

  function After(passes: seq<Pass>): State {
    if passes == [] then State({}, {}, multiset{}, multiset{})
    else Ran(After(passes[..|passes| - 1]), passes[|passes| - 1])
  }

  /** What a pass over `p` may do to one pull request's record. */
  ghost predicate OneKey(s: State, s': State, k: Key) {
    && s'.recreated == s.recreated
    && s.watch <= s'.watch && s.attempted <= s'.attempted
    && if s'.rebased[k] == s.rebased[k] then (k in s'.watch <==> k in s.watch) && (k in s'.attempted <==> k in s.attempted)
       else s'.rebased[k] == s.rebased[k] + 1 && k in s'.watch && k in s'.attempted && k !in s.watch && k !in s.attempted
  }

  lemma {:induction false} AsksOnce(s: State, p: Pass, n: nat, k: Key)
    requires n <= |p.snap|
    ensures OneKey(s, AskedUpTo(s, p, n), k)
  {
    if n > 0 {
      AsksOnce(s, p, n - 1, k);
    }
  }

  lemma {:induction false} AskedAreBehind(s: State, p: Pass, n: nat)
    requires n <= |p.snap|
    requires s.watch <= Open(p.snap) && s.attempted <= BehindKeys(p.snap)
    ensures AskedUpTo(s, p, n).watch <= Open(p.snap) && AskedUpTo(s, p, n).attempted <= BehindKeys(p.snap)
  {
    if n > 0 {
      AskedAreBehind(s, p, n - 1);
      assert p.snap[n - 1] in p.snap;
    }
  }

  /** After each pass only open pull requests are watched, and only behind ones count as attempted. */
  lemma CleanAfterEachPass(s: State, p: Pass)
    ensures Ran(s, p).watch <= Open(p.snap)
    ensures Ran(s, p).attempted <= BehindKeys(p.snap)
  {
    var clean := Pruned(Reconciled(s, p), p);
    forall k | k in clean.watch ensures k in Open(p.snap) {
      assert ByKey(p.snap)[k] in p.snap;
    }
    if p.readable {
      AskedAreBehind(clean, p, Min(p.reached, |p.snap|));
    }
  }

  /** One for a rebase that may still be answered by a recreate. */
  function Owed(s: State, k: Key): nat {
    if k in s.watch then 1 else 0
  }

  lemma ReconcileOwes(s: State, p: Pass, k: Key)
    ensures Reconciled(s, p).recreated[k] + Owed(Reconciled(s, p), k) <= s.recreated[k] + Owed(s, k)
  {
  }

  /** Over any run, recreates never exceed the rebases that were accepted. */
  lemma {:induction false} RecreatesAreEarned(passes: seq<Pass>, k: Key)
    ensures After(passes).recreated[k] + Owed(After(passes), k) <= After(passes).rebased[k]
  {
    if passes != [] {
      var s, p := After(passes[..|passes| - 1]), passes[|passes| - 1];
      RecreatesAreEarned(passes[..|passes| - 1], k);
      ReconcileOwes(s, p, k);
      if p.readable {
        AsksOnce(Pruned(Reconciled(s, p), p), p, Min(p.reached, |p.snap|), k);
      }
    }
  }

  /** In how many of the passes the pull request was not listed as behind. */
  function NotBehind(passes: seq<Pass>, k: Key): nat {
    if passes == [] then 0
    else NotBehind(passes[..|passes| - 1], k) + (if k in BehindKeys(passes[|passes| - 1].snap) then 0 else 1)
  }

  /** Each accepted rebase but the first takes a pass that saw the pull request no longer behind. */
  lemma {:induction false} RebasesPerSpell(passes: seq<Pass>, k: Key)
    ensures After(passes).rebased[k] <= NotBehind(passes, k) + (if k in After(passes).attempted then 1 else 0)
  {
    if passes != [] {
      var s, p := After(passes[..|passes| - 1]), passes[|passes| - 1];
      RebasesPerSpell(passes[..|passes| - 1], k);
      if p.readable {
        AsksOnce(Pruned(Reconciled(s, p), p), p, Min(p.reached, |p.snap|), k);
      }
    }
  }

  ghost predicate StaysBehind(passes: seq<Pass>, from: nat, k: Key) {
    forall i | from <= i < |passes| :: k in BehindKeys(passes[i].snap)
  }

  /** However long a pull request stays behind, at most one rebase is accepted for it meanwhile. */
  lemma {:induction false} OneRebaseWhileBehind(passes: seq<Pass>, from: nat, k: Key)
    requires from <= |passes| && StaysBehind(passes, from, k)
    ensures var before, after := After(passes[..from]), After(passes);
            if k in before.attempted then after.rebased[k] == before.rebased[k] && k in after.attempted
            else after.rebased[k] <= before.rebased[k] + 1 && (after.rebased[k] > before.rebased[k] ==> k in after.attempted)
  {
    if from == |passes| {
      assert passes[..from] == passes;
    } else {
      var most, p := passes[..|passes| - 1], passes[|passes| - 1];
      assert most[..from] == passes[..from];
      OneRebaseWhileBehind(most, from, k);
      assert k in BehindKeys(p.snap);
      if p.readable {
        AsksOnce(Pruned(Reconciled(After(most), p), p), p, Min(p.reached, |p.snap|), k);
      }
    }
  }

  /** A wanted, behind pull request not yet attempted is asked about once a pass gets to it, if the forge takes it. */
  lemma {:induction false} AskedOnceReached(s: State, p: Pass, n: nat, i: nat)
    requires i < n <= |p.snap| && Asks(s, p, p.snap[i])
    ensures AskedUpTo(s, p, n).rebased[p.snap[i].key] == s.rebased[p.snap[i].key] + 1
  {
    var k := p.snap[i].key;
    AsksOnce(s, p, n - 1, k);
    AsksOnce(s, p, n, k);
    if i < n - 1 {
      AskedOnceReached(s, p, n - 1, i);
    }
  }

  /** `pr` is the one pull request listed under its key. */
  ghost predicate OnlyListing(p: Pass, pr: Pull) {
    pr in p.snap && forall q | q in p.snap && q.key == pr.key :: q == pr
  }

  /** A pass asks again only for a pull request that is no longer watched. */
  lemma RanOf(s: State, p: Pass, k: Key)
    ensures var r, clean := Ran(s, p), Pruned(Reconciled(s, p), p);
      && r.recreated == Reconciled(s, p).recreated
      && (k in r.watch <==> k in clean.watch || r.rebased[k] > s.rebased[k])
  {
    var clean := Pruned(Reconciled(s, p), p);
    if p.readable { AsksOnce(clean, p, Min(p.reached, |p.snap|), k); }
  }

  /**
   * What a pass does about a watched pull request, by its CI: a failed one is answered by a recreate, if
   * the forge takes it, and let go; one that passed is let go with nothing said; one still running is
   * watched on. Only a new rebase, made in the same pass, has it watched again.
   */
  lemma {:induction false} WatchedFares(passes: seq<Pass>, pr: Pull)
    requires passes != []
    requires OnlyListing(passes[|passes| - 1], pr) && pr.key in After(passes[..|passes| - 1]).watch
    ensures var p, s, after := passes[|passes| - 1], After(passes[..|passes| - 1]), After(passes);
      && after.recreated[pr.key] == s.recreated[pr.key] + (if pr.ci == Failing && pr.key in p.recreateTaken then 1 else 0)
      && (pr.ci == Unresolved ==> pr.key in after.watch && after.rebased[pr.key] == s.rebased[pr.key])
      && (pr.ci != Unresolved ==> (pr.key in after.watch <==> after.rebased[pr.key] > s.rebased[pr.key]))
  {
    var p, s := passes[|passes| - 1], After(passes[..|passes| - 1]);
    assert ByKey(p.snap)[pr.key] == pr;
    RanOf(s, p, pr.key);
    if p.readable { AsksOnce(Pruned(Reconciled(s, p), p), p, Min(p.reached, |p.snap|), pr.key); }
  }

  /** One that is gone from the board is let go, and nothing is ever recreated that was not watched. */
  lemma {:induction false} OthersFare(passes: seq<Pass>, k: Key)
    requires passes != [] && (k !in Open(passes[|passes| - 1].snap) || k !in After(passes[..|passes| - 1]).watch)
    ensures After(passes).recreated[k] == After(passes[..|passes| - 1]).recreated[k]
    ensures k !in Open(passes[|passes| - 1].snap) ==> k !in After(passes).watch
  {
    var p, s := passes[|passes| - 1], After(passes[..|passes| - 1]);
    RanOf(s, p, k);
    CleanAfterEachPass(s, p);
    assert k !in Open(p.snap) ==> k !in ByKey(p.snap);
  }

  /** The place of the one pull request listed under its key. */
  ghost predicate AloneAt(snap: seq<Pull>, i: nat) {
    i < |snap| && forall j | 0 <= j < |snap| && j != i :: snap[j].key != snap[i].key
  }

  lemma {:induction false} AskedAlone(s: State, p: Pass, n: nat, i: nat)
    requires n <= |p.snap| && AloneAt(p.snap, i)
    ensures var k, after := p.snap[i].key, AskedUpTo(s, p, n);
      && after.rebased[k] == s.rebased[k] + (if i < n && Asks(s, p, p.snap[i]) then 1 else 0)
      && (n <= i ==> (k in after.watch <==> k in s.watch) && (k in after.attempted <==> k in s.attempted))
  {
    if n > 0 {
      AskedAlone(s, p, n - 1, i);
      if i < n - 1 { AsksOnce(s, p, n, p.snap[i].key); }
    }
  }

  /**
   * When a pass has a rebase accepted: it could read the settings and got as far as the pull request,
   * which is behind, no draft, Dependabot's and wanted; nothing is still waited on for it and none was
   * accepted before in this spell; and the forge takes the comment.
   */
  lemma {:induction false} RebasedIff(passes: seq<Pass>, i: nat)
    requires passes != [] && AloneAt(passes[|passes| - 1].snap, i)
    ensures var p, s, after := passes[|passes| - 1], After(passes[..|passes| - 1]), After(passes);
      var pr := p.snap[i];
      after.rebased[pr.key] == s.rebased[pr.key]
        + (if && p.readable && i < p.reached && pr.key in p.rebaseTaken
              && pr.behind && !pr.draft && pr.dependabot && pr.wanted
              && (pr.key !in s.watch || pr.ci != Unresolved) && pr.key !in s.attempted
           then 1 else 0)
  {
    var p, s := passes[|passes| - 1], After(passes[..|passes| - 1]);
    var pr, clean := p.snap[i], Pruned(Reconciled(s, p), p);
    assert pr in p.snap;
    assert ByKey(p.snap)[pr.key] == pr;
    assert pr.behind ==> pr.key in BehindKeys(p.snap);
    if p.readable { AskedAlone(clean, p, Min(p.reached, |p.snap|), i); }
  }

  lemma {:induction false} AskedAmong(s: State, p: Pass, n: nat, k: Key)
    requires n <= |p.snap| && k !in Open(p.snap)
    ensures AskedUpTo(s, p, n).rebased[k] == s.rebased[k]
  {
    if n > 0 {
      AskedAmong(s, p, n - 1, k);
      assert p.snap[n - 1] in p.snap;
    }
  }

  /** None is accepted for what is not listed. */
  lemma {:induction false} UnlistedIsNotRebased(passes: seq<Pass>, k: Key)
    requires passes != [] && k !in Open(passes[|passes| - 1].snap)
    ensures After(passes).rebased[k] == After(passes[..|passes| - 1]).rebased[k]
  {
    var p, s := passes[|passes| - 1], After(passes[..|passes| - 1]);
    if p.readable { AskedAmong(Pruned(Reconciled(s, p), p), p, Min(p.reached, |p.snap|), k); }
  }
}
