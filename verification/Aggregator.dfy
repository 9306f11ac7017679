/** The aggregator's own loops and fields, each method proved against the function the theorems are about. */
module Aggregators {
  import opened Prelude
  import opened Seqs
  import opened Rows
  import opened Merge
  import opened Refresh
  import opened RefreshRuns
  import opened Polls

  lemma Next<T>(xs: seq<T>, i: nat)
    requires i < |xs|
    ensures xs[..i + 1][..i] == xs[..i] && xs[..i + 1][i] == xs[i]
  {
  }

  lemma FilterNext<T>(xs: seq<T>, i: nat, keep: T -> bool)
    requires i < |xs|
    ensures Filter(xs[..i + 1], keep) == if keep(xs[i]) then Filter(xs[..i], keep) + [xs[i]] else Filter(xs[..i], keep)
  {
    Next(xs, i);
  }

  /** slices.DeleteFunc and the append loops: the rows that pass, in order. */
  method Keep(rows: seq<Row>, keep: Row -> bool) returns (kept: seq<Row>)
    ensures kept == Filter(rows, keep)
  {
    kept := [];
    for i := 0 to |rows|
      invariant kept == Filter(rows[..i], keep)
    {
      Next(rows, i);
      if keep(rows[i]) {
        kept := kept + [rows[i]];
      }
    }
    assert rows[..|rows|] == rows;
  }

  lemma PatchedLast(rows: seq<Row>, r: Row, pulls: map<Id, Row>, closed: set<Id>)
    ensures Patched(rows + [r], pulls, closed) == Patched(rows, pulls, closed) + (if r.id in closed then [] else [Fresh(pulls)(r)])
  {
    FilterLast(rows, r, NotIn(closed));
  }

  /** repoPullRequestsAfter. */
  method RepoPullRequestsAfter(snap: Snapshot, k: RepoKey, replaced: map<Id, Row>, closed: set<Id>) returns (prs: seq<Row>)
    ensures prs == Patched(At(snap.prs, k), replaced, closed)
  {
    prs := [];
    for i := 0 to |snap.prs|
      invariant prs == Patched(At(snap.prs[..i], k), replaced, closed)
    {
      FilterNext(snap.prs, i, Of(k));
      Next(snap.prs, i);
      var pr := snap.prs[i];
      ghost var mine := At(snap.prs[..i], k);
      if pr.id.home == k {
        PatchedLast(mine, pr, replaced, closed);
        assert prs + [] == prs;
        if pr.id !in closed {
          if pr.id in replaced {
            prs := prs + [replaced[pr.id]];
          } else {
            prs := prs + [pr];
          }
        }
      }
    }
    assert snap.prs[..|snap.prs|] == snap.prs;
  }

  /** keepRows: the last row of a repository in `current` is the one kept. */
  method KeepRowsOf(repos: seq<RepoRow>, current: seq<RepoRow>, newer: set<RepoKey>) returns (out: seq<RepoRow>)
    ensures out == KeepRows(repos, current, newer)
  {
    var kept: map<RepoKey, RepoRow> := map[];
    for i := 0 to |current|
      invariant forall k :: k in kept <==> k in newer && LastOf(current[..i], k).Some?
      invariant forall k | k in kept :: LastOf(current[..i], k) == Some(kept[k])
    {
      Next(current, i);
      if current[i].home in newer {
        kept := kept[current[i].home := current[i]];
      }
    }
    assert current[..|current|] == current;
    out := repos;
    for i := 0 to |repos|
      invariant |out| == |repos|
      invariant forall j | 0 <= j < i :: out[j] == Kept(current, newer)(repos[j])
      invariant forall j | i <= j < |repos| :: out[j] == repos[j]
    {
      if out[i].home in kept {
        out := out[i := kept[out[i].home]];
      }
    }
  }

  /** listedByKey, as far as the sweeps use it: the pull requests listed. */
  method ListedByKey(prs: seq<Row>) returns (listed: set<Id>)
    ensures listed == Listed(prs)
  {
    listed := {};
    for i := 0 to |prs|
      invariant listed == Listed(prs[..i])
    {
      assert prs[..i + 1] == prs[..i] + [prs[i]];
      listed := listed + {prs[i].id};
    }
    assert prs[..|prs|] == prs;
  }

  /** The overrides left once every listed row that fetch `n` read has been seen to. */
  function Swept(overrides: map<Id, Override>, n: nat, listed: set<Id>, cover: Cover, read: ReadRows): map<Id, Override> {
    map id | id in overrides && !(id in listed && Covers(cover, id.home) && Reads(read, id) && overrides[id].after < n) :: overrides[id]
  }

  /** keepFailedRepos, for one of the two lists. */
  method KeepFailed(failed: seq<Failed>, p: Part, f: Forge, rows: seq<Row>) returns (kept: seq<Row>)
    ensures kept == PutBack(failed, p, f, rows)
  {
    kept := [];
    for i := 0 to |failed|
      invariant kept == PutBack(failed[..i], p, f, rows)
    {
      Next(failed, i);
      if Lost(failed[i], p) {
        var mine := Keep(rows, Of(RepoKey(f, failed[i].repo)));
        kept := kept + mine;
      } else {
        assert kept + [] == kept;
      }
    }
    assert failed[..|failed|] == failed;
  }

  /** One of the two lists a source contributes: its own rows, or what the forge had. */
  method TakeIn(a: Answer, p: Part, n: nat, earlier: Earlier, good: set<Forge>) returns (rows: seq<Row>)
    ensures rows == RowsFrom(a, p, n, earlier, good)
  {
    if !a.reachable && a.forge in good {
      rows := Keep(Get(earlier.now, p), OfForge(a.forge));
    } else if a.HeldBack? {
      rows := Keep(Get(earlier.start, p), OfForge(a.forge));
    } else if a.reachable {
      var failed := KeepFailed(a.failed, p, a.forge, Get(earlier.now, p));
      var skipped := Keep(Get(earlier.now, p), SkippedBy(a.forge, a.skipped));
      rows := Map(Answered(a, p), Stamp(n)) + failed + skipped;
    } else {
      rows := Map(Answered(a, p), Stamp(n));
    }
  }

  lemma GoodNext(answers: seq<Answer>, i: nat, good: set<Forge>)
    requires i < |answers|
    ensures Good(answers[..i + 1], good) == Good(answers[..i], good) + (if answers[i].reachable then {answers[i].forge} else {})
  {
    assert answers[..i + 1] == answers[..i] + [answers[i]];
  }

  lemma AllNext(answers: seq<Answer>, i: nat, n: nat, earlier: Earlier, good: set<Forge>)
    requires i < |answers|
    ensures forall p :: AllRows(answers[..i + 1], p, n, earlier, good)
                        == AllRows(answers[..i], p, n, earlier, good) + RowsFrom(answers[i], p, n, earlier, Good(answers[..i], good))
    ensures AllRepos(answers[..i + 1], n, earlier, good)
            == AllRepos(answers[..i], n, earlier, good) + ReposFrom(answers[i], n, earlier, Good(answers[..i], good))
  {
    Next(answers, i);
  }

  /** The loop of refreshOnce over what the sources came back with. */
  method Gather(answers: seq<Answer>, n: nat, earlier: Earlier, lastGood: set<Forge>) returns (all: Snapshot, goodAt: set<Forge>)
    ensures all == Gathered(answers, n, earlier, lastGood)
    ensures goodAt == Good(answers, lastGood)
  {
    hide RowsFrom, ReposFrom;
    var prs, issues, repos: seq<RepoRow> := [], [], [];
    goodAt := lastGood;
    for i := 0 to |answers|
      invariant goodAt == Good(answers[..i], lastGood)
      invariant prs == AllRows(answers[..i], Prs, n, earlier, lastGood)
      invariant issues == AllRows(answers[..i], Issues, n, earlier, lastGood)
      invariant repos == AllRepos(answers[..i], n, earlier, lastGood)
    {
      AllNext(answers, i, n, earlier, lastGood);
      GoodNext(answers, i, lastGood);
      var morePrs := TakeIn(answers[i], Prs, n, earlier, goodAt);
      var moreIssues := TakeIn(answers[i], Issues, n, earlier, goodAt);
      prs, issues := prs + morePrs, issues + moreIssues;
      repos := repos + ReposFrom(answers[i], n, earlier, goodAt);
      if answers[i].reachable {
        goodAt := goodAt + {answers[i].forge};
      }
    }
    assert answers[..|answers|] == answers;
    all := Snapshot(prs, issues, repos);
  }

  /** The rows of a poll's answer by key; a later one replaces an earlier. */
  function LastPulls(pulls: seq<Row>): (last: map<Id, Row>)
    ensures forall id | id in last :: last[id] in pulls && last[id].id == id
    ensures last.Keys == Listed(pulls)
  {
    if pulls == [] then map[]
    else
      var most, pr := pulls[..|pulls| - 1], pulls[|pulls| - 1];
      assert pulls == most + [pr];
      LastPulls(most)[pr.id := pr]
  }

  /** The answer that counts for a pull request is the last one. */
  lemma {:induction false} LastWins(pulls: seq<Row>, i: nat)
    requires i < |pulls| && forall j | i < j < |pulls| :: pulls[j].id != pulls[i].id
    ensures LastPulls(pulls)[pulls[i].id] == pulls[i]
  {
    if i < |pulls| - 1 {
      LastWins(pulls[..|pulls| - 1], i);
    }
  }

  function Ids(closed: seq<Id>): set<Id> {
    set id | id in closed
  }

  /** A poll's answer is about a repository. */
  ghost predicate Touches(pulls: seq<Row>, closed: seq<Id>, k: RepoKey) {
    (exists pr | pr in pulls :: pr.id.home == k) || (exists id | id in closed :: id.home == k)
  }

  lemma TouchesIff(pulls: seq<Row>, closed: seq<Id>, ids: set<Id>, k: RepoKey)
    requires ids == Listed(pulls) + Ids(closed)
    ensures Touches(pulls, closed, k) <==> exists id | id in ids :: id.home == k
  {
    if pr :| pr in pulls && pr.id.home == k {
      assert pr.id in ids;
    } else if id :| id in closed && id.home == k {
      assert id in ids;
    }
    if id :| id in ids && id.home == k {
      assert id in Listed(pulls) || id in closed;
    }
  }

  lemma OrderTouches(pulls: seq<Row>, closed: seq<Id>, order: seq<RepoKey>)
    requires IsPoll(LastPulls(pulls), Ids(closed), order)
    ensures forall k :: k in order <==> Touches(pulls, closed, k)
  {
    hide Touches;
    var ids := LastPulls(pulls).Keys + Ids(closed);
    var homes := set id | id in ids :: id.home;
    assert (set j | j in order) == homes;
    forall k ensures k in order <==> Touches(pulls, closed, k) {
      TouchesIff(pulls, closed, ids, k);
      assert k in order <==> k in homes;
    }
  }

  lemma StampedAlready(pulls: map<Id, Row>, n: nat)
    requires forall id | id in pulls :: pulls[id].stamp == n
    ensures (map id | id in pulls :: pulls[id].(stamp := n)) == pulls
  {
  }

  /** The tables mergePendingResult fills before it merges. */
  method PollTables(pulls: seq<Row>, closed: seq<Id>) returns (repos: set<RepoKey>, replaced: map<Id, Row>, gone: set<Id>)
    ensures replaced == LastPulls(pulls) && gone == Ids(closed)
    ensures repos == set id | id in replaced.Keys + gone :: id.home
  {
    repos, replaced, gone := {}, map[], {};
    for i := 0 to |pulls|
      invariant replaced == LastPulls(pulls[..i])
      invariant repos == set id | id in replaced.Keys :: id.home
    {
      Next(pulls, i);
      repos, replaced := repos + {pulls[i].id.home}, replaced[pulls[i].id := pulls[i]];
    }
    assert pulls[..|pulls|] == pulls;
    for i := 0 to |closed|
      invariant gone == Ids(closed[..i])
      invariant repos == set id | id in replaced.Keys + gone :: id.home
    {
      assert closed[..i + 1] == closed[..i] + [closed[i]];
      repos, gone := repos + {closed[i].home}, gone + {closed[i]};
    }
    assert closed[..|closed|] == closed;
  }

  /** A poll lands in every repository it touches, unless a newer merge has overtaken it there. */
  lemma PollLandsEverywhere(b: Board, n: nat, pulls: map<Id, Row>, closed: set<Id>, order: seq<RepoKey>, oldest: int)
    requires IsPoll(pulls, closed, order) && forall id | id in pulls :: pulls[id].stamp == n
    ensures var after := MergedFrom(b, n, PollShares(n, pulls, closed, order), oldest);
      && (forall k | k in order ::
            if NotNewer(b, k, n) then PollLanded(b, after, n, pulls, closed, oldest, k) else Alike(after, b, k))
      && (forall k | k !in order :: Alike(after, b, k))
  {
    hide MergedFrom, PollLanded, NotNewer, Alike;
    var shares := PollShares(n, pulls, closed, order);
    StampedAlready(pulls, n);
    forall k | k in order
      ensures if NotNewer(b, k, n) then PollLanded(b, MergedFrom(b, n, shares, oldest), n, pulls, closed, oldest, k)
              else Alike(MergedFrom(b, n, shares, oldest), b, k)
    {
      var i :| 0 <= i < |order| && order[i] == k;
      APollLands(b, n, shares, oldest, i);
    }
    forall k | k !in order ensures Alike(MergedFrom(b, n, shares, oldest), b, k) {
      OthersUntouched(b, n, shares, oldest, k);
    }
  }

  lemma SharesNext(b: Board, n: nat, shares: seq<Share>, i: nat, oldest: int)
    requires i < |shares|
    ensures MergedShares(b, n, shares[..i + 1], oldest) == MergedShare(MergedShares(b, n, shares[..i], oldest), n, shares[i], oldest)
    ensures MergedShare(MergedShares(b, n, shares[..i], oldest), n, shares[i], oldest).snap.repos
            == MergedShares(b, n, shares[..i], oldest).snap.repos
  {
    Next(shares, i);
  }

  lemma WholeNext(shares: seq<Share>, i: nat)
    requires i < |shares|
    ensures Whole(shares[..i + 1]) == Whole(shares[..i])
                                      + (if shares[i].source.Fetched? && shares[i].source.whole then {shares[i].repo} else {})
  {
    assert shares[..i + 1] == shares[..i] + [shares[i]];
  }

  /** repoRows.rows, for a share that is not skipped. */
  method RowsOfShare(snap: Snapshot, share: Share) returns (prs: seq<Row>, issues: seq<Row>)
    ensures prs == SharePrs(snap, share) && issues == ShareIssues(snap, share)
  {
    match share.source
    case Fetched(fetchedPrs, fetchedIssues, _) =>
      prs, issues := fetchedPrs, fetchedIssues;
    case Polled(pulls, closed) =>
      prs := RepoPullRequestsAfter(snap, share.repo, pulls, closed);
      issues := Keep(snap.issues, Of(share.repo));
  }

  /** withoutStale. */
  method WithoutStale(repos: seq<RepoRow>, fetched: set<RepoKey>) returns (out: seq<RepoRow>)
    ensures out == Map(repos, Refreshed(fetched))
  {
    out := repos;
    for i := 0 to |repos|
      invariant |out| == |repos|
      invariant forall j | 0 <= j < i :: out[j] == Refreshed(fetched)(repos[j])
      invariant forall j | i <= j < |repos| :: out[j] == repos[j]
    {
      if repos[i].home in fetched && repos[i].stale {
        out := out[i := repos[i].(stale := false)];
      }
    }
  }

  lemma SweptNext(overrides: map<Id, Override>, n: nat, listed: set<Id>, cover: Cover, read: ReadRows, id: Id)
    ensures Swept(overrides, n, listed + {id}, cover, read)
            == Swept(Swept(overrides, n, listed, cover, read), n, {id}, cover, read)
  {
  }

  lemma ListedNext(rows: seq<Row>, i: nat)
    requires i < |rows|
    ensures Listed(rows[..i + 1]) == Listed(rows[..i]) + {rows[i].id}
  {
    assert rows[..i + 1] == rows[..i] + [rows[i]];
  }

  lemma BoxedSwept(overrides: map<Id, Override>, n: nat, listed: set<Id>, cover: Cover, read: ReadRows, r: Row)
    ensures Boxed(overrides, n, cover, read)(r) == Boxed(Swept(overrides, n, listed, cover, read), n, cover, read)(r)
  {
  }

  class Aggregator {
    var snap: Snapshot
    var scopedSeq: map<RepoKey, nat>
    var settled: map<Id, int>
    var boxOverrides: map<Id, Override>
    var fetchSeq: nat
    var lastGood: set<Forge>

    function View(): Board
      reads this
    {
      Board(snap, scopedSeq, settled, boxOverrides)
    }

    constructor ()
      ensures View() == Board(EMPTY, map[], map[], map[]) && fetchSeq == 0 && lastGood == {}
    {
      snap, scopedSeq, settled, boxOverrides, fetchSeq, lastGood := EMPTY, map[], map[], map[], 0, {};
    }

    /** withoutSettled. */
    method WithoutSettled(prs: seq<Row>, scope: Option<RepoKey>, oldest: int) returns (kept: seq<Row>)
      modifies this`settled
      ensures settled == Held(old(settled), Listed(prs), scope, oldest)
      ensures kept == Unsettled(prs, settled)
    {
      var listed := ListedByKey(prs);
      var all := settled.Keys;
      while all != {}
        invariant all <= old(settled).Keys
        invariant forall id :: id in settled <==> id in old(settled) && (id in all || id in Held(old(settled), listed, scope, oldest))
        invariant forall id | id in settled :: settled[id] == old(settled)[id]
        decreases |all|
      {
        var id :| id in all;
        if InScope(scope, id) && (settled[id] < oldest || id !in listed) {
          settled := settled - {id};
        }
        all := all - {id};
      }
      assert settled == Held(old(settled), listed, scope, oldest);
      kept := Keep(prs, NotIn(settled.Keys));
    }

    /** One row the first sweep comes to: its box is put right, or its override is retired. */
    method SettleRow(prs: array<Row>, i: nat, n: nat, cover: Cover, read: ReadRows)
      requires i < prs.Length
      modifies prs, this`boxOverrides
      ensures prs[i] == Boxed(old(boxOverrides), n, cover, read)(old(prs[i]))
      ensures forall j | 0 <= j < prs.Length && j != i :: prs[j] == old(prs[j])
      ensures boxOverrides == Swept(old(boxOverrides), n, {old(prs[i].id)}, cover, read)
    {
      var pr := prs[i];
      if pr.id in boxOverrides && Covers(cover, pr.id.home) && Reads(read, pr.id) {
        var o := boxOverrides[pr.id];
        if n <= o.after {
          prs[i] := pr.(box := o.ticked);
        } else {
          boxOverrides := boxOverrides - {pr.id};
        }
      }
    }

    /** The first sweep over every row. */
    method SettleRows(prs: array<Row>, n: nat, cover: Cover, read: ReadRows)
      modifies prs, this`boxOverrides
      ensures prs[..] == Map(old(prs[..]), Boxed(old(boxOverrides), n, cover, read))
      ensures boxOverrides == Swept(old(boxOverrides), n, Listed(old(prs[..])), cover, read)
    {
      ghost var rows, overrides := prs[..], boxOverrides;
      ghost var f := Boxed(boxOverrides, n, cover, read);
      for i := 0 to prs.Length
        invariant forall j | 0 <= j < i :: prs[j] == f(rows[j])
        invariant forall j | i <= j < prs.Length :: prs[j] == rows[j]
        invariant boxOverrides == Swept(overrides, n, Listed(rows[..i]), cover, read)
      {
        ListedNext(rows, i);
        SweptNext(overrides, n, Listed(rows[..i]), cover, read, rows[i].id);
        BoxedSwept(overrides, n, Listed(rows[..i]), cover, read, rows[i]);
        SettleRow(prs, i, n, cover, read);
      }
      assert rows[..prs.Length] == rows;
    }

    /** The second sweep: a pull request that is gone retires its override too. */
    method ForgetUnlisted(n: nat, listed: set<Id>, cover: Cover, read: ReadRows, ghost overrides: map<Id, Override>)
      requires boxOverrides == Swept(overrides, n, listed, cover, read)
      modifies this`boxOverrides
      ensures boxOverrides == Unretired(overrides, n, listed, cover, read)
    {
      ghost var before := boxOverrides;
      var all := boxOverrides.Keys;
      while all != {}
        invariant all <= before.Keys
        invariant forall id :: id in boxOverrides <==> id in before && (id in all || id in Unretired(overrides, n, listed, cover, read))
        invariant forall id | id in boxOverrides :: boxOverrides[id] == overrides[id]
        decreases |all|
      {
        var id :| id in all;
        if id !in listed && boxOverrides[id].after < n && Covers(cover, id.home) {
          boxOverrides := boxOverrides - {id};
        }
        all := all - {id};
      }
    }

    /** settleBoxOverrides: the boxes are put right in place, and the overrides that are over forgotten. */
    method SettleBoxOverrides(prs: array<Row>, n: nat, cover: Cover, read: ReadRows)
      modifies prs, this`boxOverrides
      ensures prs[..] == Map(old(prs[..]), Boxed(old(boxOverrides), n, cover, read))
      ensures boxOverrides == Unretired(old(boxOverrides), n, Listed(old(prs[..])), cover, read)
    {
      var listed := ListedByKey(prs[..]);
      SettleRows(prs, n, cover, read);
      ForgetUnlisted(n, listed, cover, read, old(boxOverrides));
    }

    /** Boxes put right on a copy of `rows`. */
    method SettleCopy(rows: seq<Row>, n: nat, cover: Cover, read: ReadRows) returns (boxed: seq<Row>)
      modifies this`boxOverrides
      ensures boxed == Map(rows, Boxed(old(boxOverrides), n, cover, read))
      ensures boxOverrides == Unretired(old(boxOverrides), n, Listed(rows), cover, read)
    {
      var copy := new Row[|rows|](i requires 0 <= i < |rows| => rows[i]);
      assert copy[..] == rows;
      SettleBoxOverrides(copy, n, cover, read);
      boxed := copy[..];
    }

    /** mergedRepo. The snapshot is passed along and handed back; the caller writes it. */
    method MergedRepo(current: Snapshot, k: RepoKey, n: nat, prs: seq<Row>, issues: seq<Row>, read: ReadRows, oldest: int)
        returns (merged: Snapshot)
      modifies this`settled, this`boxOverrides, this`scopedSeq
      ensures Board(merged, scopedSeq, settled, boxOverrides)
              == Merge.MergedRepo(old(View().(snap := current)), k, n, prs, issues, read, oldest)
    {
      var others := Keep(current.prs, NotOf(k));
      var kept := WithoutSettled(prs, Some(k), oldest);
      var otherIssues := Keep(current.issues, NotOf(k));
      var boxed := SettleCopy(others + kept, n, Repo(k), read);
      merged := Snapshot(SortByRecency(boxed), SortByRecency(otherIssues + issues), current.repos);
      scopedSeq := scopedSeq[k := n];
    }

    /** One repository of a merge; false when its poll was overtaken. */
    method MergeShare(current: Snapshot, n: nat, share: Share, oldest: int) returns (merged: Snapshot, ok: bool)
      modifies this`settled, this`boxOverrides, this`scopedSeq
      ensures Board(merged, scopedSeq, settled, boxOverrides) == MergedShare(old(View().(snap := current)), n, share, oldest)
      ensures ok == !Skipped(old(scopedSeq), share, n)
      ensures !ok ==> merged == current && View() == old(View())
    {
      if share.source.Polled? && share.repo in scopedSeq && scopedSeq[share.repo] > n {
        return current, false;
      }
      var prs, issues := RowsOfShare(current, share);
      merged := MergedRepo(current, share.repo, n, prs, issues, ReadOf(share.source), oldest);
      ok := true;
    }

    /** The loop of mergeReposFrom: every repository merged in turn, and those whose stale mark is over. */
    method MergeShares(n: nat, shares: seq<Share>, oldest: int) returns (merged: Snapshot, fetched: set<RepoKey>, wrote: bool)
      modifies this`settled, this`boxOverrides, this`scopedSeq
      ensures Board(merged, scopedSeq, settled, boxOverrides) == MergedShares(old(View()), n, shares, oldest)
      ensures fetched == Whole(shares) && merged.repos == snap.repos
      ensures !wrote ==> merged == snap && View() == old(View()) && fetched == {}
    {
      hide MergedShare;
      ghost var was := View();
      merged, wrote, fetched := snap, false, {};
      for i := 0 to |shares|
        invariant Board(merged, scopedSeq, settled, boxOverrides) == MergedShares(was, n, shares[..i], oldest)
        invariant fetched == Whole(shares[..i])
        invariant !wrote ==> merged == snap && View() == was && fetched == {}
        invariant merged.repos == snap.repos
      {
        SharesNext(was, n, shares, i, oldest);
        WholeNext(shares, i);
        var ok;
        merged, ok := MergeShare(merged, n, shares[i], oldest);
        if ok {
          if shares[i].source.Fetched? && shares[i].source.whole {
            fetched := fetched + {shares[i].repo};
          }
          wrote := true;
        }
      }
      assert shares[..|shares|] == shares;
    }

    /** mergeReposFrom, up to where the subscribers are told. */
    method MergeReposFrom(n: nat, shares: seq<Share>, oldest: int)
      modifies this`snap, this`scopedSeq, this`settled, this`boxOverrides
      ensures View() == MergedFrom(old(View()), n, shares, oldest)
    {
      var merged, fetched, wrote := MergeShares(n, shares, oldest);
      if !wrote {
        assert Map(snap.repos, Refreshed({})) == snap.repos;
        return;
      }
      var repos := WithoutStale(merged.repos, fetched);
      snap := merged.(repos := repos);
    }

    /** The merges of a poll: one for each repository it touched, in whatever order. */
    method PollMerges(n: nat, pulls: seq<Row>, closed: seq<Id>) returns (merges: seq<Share>, ghost order: seq<RepoKey>)
      requires AllStamped(pulls, n)
      ensures IsPoll(LastPulls(pulls), Ids(closed), order)
      ensures merges == PollShares(n, LastPulls(pulls), Ids(closed), order)
    {
      var repos, replaced, gone := PollTables(pulls, closed);
      merges, order := [], [];
      ghost var all := repos;
      while repos != {}
        invariant repos <= all && (set k | k in order) == all - repos
        invariant forall i, j | 0 <= i < j < |order| :: order[i] != order[j]
        invariant |merges| == |order| && forall i | 0 <= i < |order| :: merges[i] == Share(order[i], Polled(replaced, gone))
        decreases |repos|
      {
        var k :| k in repos;
        assert (set j | j in order + [k]) == (set j | j in order) + {k};
        merges, order, repos := merges + [Share(k, Polled(replaced, gone))], order + [k], repos - {k};
      }
      StampedAlready(replaced, n);
      assert merges == PollShares(n, replaced, gone, order);
    }

    /** mergePendingResult: a poll's answer, landed in each repository it touches that nothing newer was merged into. */
    method MergePendingResult(n: nat, pulls: seq<Row>, closed: seq<Id>, oldest: int) returns (ghost order: seq<RepoKey>)
      requires AllStamped(pulls, n)
      modifies this`snap, this`scopedSeq, this`settled, this`boxOverrides
      ensures IsPoll(LastPulls(pulls), Ids(closed), order)
      ensures View() == MergedFrom(old(View()), n, PollShares(n, LastPulls(pulls), Ids(closed), order), oldest)
      ensures forall k | Touches(pulls, closed, k) ::
        if NotNewer(old(View()), k, n) then PollLanded(old(View()), View(), n, LastPulls(pulls), Ids(closed), oldest, k)
        else Alike(View(), old(View()), k)
      ensures forall k | !Touches(pulls, closed, k) :: Alike(View(), old(View()), k)
    {
      hide Touches, PollLanded, Alike, NotNewer, IsPoll, MergedFrom;
      var merges;
      merges, order := PollMerges(n, pulls, closed);
      MergeReposFrom(n, merges, oldest);
      PollLandsEverywhere(old(View()), n, LastPulls(pulls), Ids(closed), order, oldest);
      StampedAlready(LastPulls(pulls), n);
      OrderTouches(pulls, closed, order);
    }

    /** The repositories a scoped merge numbered above `n` wrote last. */
    method NewerRepos(n: nat) returns (newer: set<RepoKey>)
      ensures newer == Newer(scopedSeq, n)
    {
      newer := {};
      var all := scopedSeq.Keys;
      while all != {}
        invariant all <= scopedSeq.Keys
        invariant newer == Newer(scopedSeq, n) - all
        decreases |all|
      {
        var k :| k in all;
        if scopedSeq[k] > n {
          newer := newer + {k};
        }
        all := all - {k};
      }
    }

    /** keepNewerScopedRepos. */
    method KeepNewerScopedRepos(latest: Snapshot, current: Snapshot, n: nat) returns (kept: Snapshot)
      ensures kept == KeepNewer(latest, current, Newer(scopedSeq, n))
    {
      var newer := NewerRepos(n);
      if newer == {} {
        return latest;
      }
      var prs := Keep(latest.prs, NotInRepos(newer));
      var currentPrs := Keep(current.prs, InRepos(newer));
      var issues := Keep(latest.issues, NotInRepos(newer));
      var currentIssues := Keep(current.issues, InRepos(newer));
      var repos := KeepRowsOf(latest.repos, current.repos, newer);
      kept := Snapshot(SortByRecency(prs + currentPrs), SortByRecency(issues + currentIssues), repos);
    }

    /** refreshOnce up to its lock: what every source came back with, gathered, settled and sorted. */
    method Assemble(answers: seq<Answer>, n: nat, earlier: Earlier, oldest: int)
        returns (latest: Snapshot, goodAt: set<Forge>)
      modifies this`settled
      ensures (latest, settled) == Assembled(answers, n, earlier, lastGood, old(settled), oldest)
      ensures goodAt == Good(answers, lastGood)
    {
      var all;
      all, goodAt := Gather(answers, n, earlier, lastGood);
      var prs := WithoutSettled(all.prs, None, oldest);
      latest := Snapshot(SortByRecency(prs), SortByRecency(all.issues), all.repos);
    }

    /** The locked end of refreshOnce: the refresh lands, and with it the forges that have answered. */
    method Land(n: nat, latest: Snapshot, goodAt: set<Forge>, reached: set<Forge>, read: set<Id>)
      modifies this`snap, this`boxOverrides, this`lastGood
      ensures View() == Landed(old(View()), n, latest, reached, read) && lastGood == goodAt
    {
      var kept := KeepNewerScopedRepos(latest, snap, n);
      var boxed := SettleCopy(kept.prs, n, Forges(reached), Only(read));
      snap := kept.(prs := boxed);
      lastGood := goodAt;
    }

    /** SetRenovateRebaseBox; false when the pull request is not on the board. */
    method SetRenovateRebaseBox(id: Id, ticked: bool) returns (found: bool)
      modifies this`snap, this`boxOverrides
      ensures View() == Ticked(old(View()), id, ticked, fetchSeq)
      ensures found <==> id in Listed(old(snap).prs)
    {
      var i := 0;
      while i < |snap.prs| && snap.prs[i].id != id
        invariant i <= |snap.prs|
        invariant forall j | 0 <= j < i :: snap.prs[j].id != id
      {
        i := i + 1;
      }
      assert i == IndexOf(snap.prs, id);
      if i == |snap.prs| {
        return false;
      }
      assert snap.prs[i] in snap.prs;
      snap := snap.(prs := snap.prs[i := snap.prs[i].(box := ticked)]);
      boxOverrides := boxOverrides[id := Override(ticked, fetchSeq)];
      found := true;
    }

    /** MarkSettled, both halves with nothing in between. */
    method MarkSettled(id: Id, now: int)
      modifies this`snap, this`settled
      ensures View() == old(View()).(snap := old(snap).(prs := Filter(old(snap).prs, NotIn({id}))), settled := old(settled)[id := now])
    {
      settled := settled[id := now];
      var prs := Keep(snap.prs, NotIn({id}));
      snap := snap.(prs := prs);
    }
  }
}
