/** The check stream: when a watched subject's job list is asked for again. */
module Relisted {
  import opened Prelude
  import opened RunGroups
  import opened CheckStream

  // ---- A new set of subjects ----

  /** Record `id`, as it is while its list is being asked for with the rows at `rows`. */
  ghost predicate AskedFor(v: Watch, id: nat, s: Subject, rows: Rows) {
    && id < |v.all| && v.all[id].subject == s && (id, v.all[id].gen) in v.fetching
    && v.all[id].sig == if s in rows then Row(rows[s]) else Missing
  }

  /** What following the subjects has made of `s` in `v`, to be followed through record `id`. */
  ghost predicate Followed(w: Watch, v: Watch, s: Subject, id: nat, refresh: bool, rows: Rows) {
    if s in w.watched && !refresh then id == w.watched[s] && id < |w.all| <= |v.all| && v.all[id] == w.all[id]
    else
      && AskedFor(v, id, s, rows)
      && if s in w.watched then id == w.watched[s] && id < |w.all| && w.all[id].gen < v.all[id].gen
         else |w.all| <= id && v.all[id].listings == []
  }

  ghost predicate FollowedAll(w: Watch, v: Watch, next: map<Subject, nat>, refresh: bool, rows: Rows) {
    && Extends(w, v) && (!refresh ==> w.all <= v.all)
    && forall s | s in next :: Followed(w, v, s, next[s], refresh, rows)
  }

  /** Following `s` touches no record of another subject, and none there was without a refresh. */
  lemma FollowingTouches(v: Watch, next: map<Subject, nat>, s: Subject, refresh: bool, rows: Rows)
    requires MapValid(v, v.watched)
    ensures var u := Following(v, next, s, refresh, rows).0;
      && |v.all| <= |u.all| && v.fetching <= u.fetching && (!refresh ==> v.all <= u.all)
      && forall j | 0 <= j < |v.all| && v.all[j].subject != s :: u.all[j] == v.all[j]
  {
  }

  lemma FollowsIt(w: Watch, v: Watch, next: map<Subject, nat>, s: Subject, refresh: bool, rows: Rows)
    requires Extends(w, v) && (!refresh ==> w.all <= v.all)
    requires s in w.watched ==> w.watched[s] < |w.all| && w.all[w.watched[s]].subject == s
    ensures var (u, n) := Following(v, next, s, refresh, rows); Followed(w, u, s, n[s], refresh, rows)
  {
    hide Extends;
    ExtendsOnly(w, v);
    if s in w.watched {
      var id := w.watched[s];
      assert id < |v.all| && v.all[id].subject == s;
    }
  }

  lemma ExtendsOnly(w: Watch, v: Watch)
    requires Extends(w, v)
    ensures |w.all| <= |v.all| && v.watched == w.watched
    ensures forall j | 0 <= j < |w.all| :: v.all[j].subject == w.all[j].subject && w.all[j].gen <= v.all[j].gen
  {
  }

  lemma FollowingNext(w: Watch, v: Watch, next: map<Subject, nat>, s: Subject, refresh: bool, rows: Rows)
    requires MapValid(v, v.watched) && MapValid(w, w.watched) && FollowedAll(w, v, next, refresh, rows)
    ensures var (u, n) := Following(v, next, s, refresh, rows); FollowedAll(w, u, n, refresh, rows)
  {
    FollowingExtends(w, v, next, s, refresh, rows);
    FollowsIt(w, v, next, s, refresh, rows);
    FollowingTouches(v, next, s, refresh, rows);
    hide Extends, ListLocked, MapValid;
    var (u, n) := Following(v, next, s, refresh, rows);
    assert n == next[s := n[s]];
    forall t | t in n ensures Followed(w, u, t, n[t], refresh, rows) {
      if t != s { StillFollowed(w, v, u, t, next[t], s, refresh, rows); }
    }
  }

  lemma StillFollowed(w: Watch, v: Watch, u: Watch, t: Subject, id: nat, s: Subject, refresh: bool, rows: Rows)
    requires Followed(w, v, t, id, refresh, rows) && t != s
    requires |v.all| <= |u.all| && v.fetching <= u.fetching && (!refresh ==> v.all <= u.all)
    requires forall j | 0 <= j < |v.all| && v.all[j].subject != s :: u.all[j] == v.all[j]
    ensures Followed(w, u, t, id, refresh, rows)
  {
  }

  lemma {:induction false} FollowAllFollows(w: Watch, subjects: seq<Subject>, refresh: bool, rows: Rows)
    requires Inv(w)
    ensures var (v, n) := FollowAll(w, map[], subjects, refresh, rows); FollowedAll(w, v, n, refresh, rows)
    decreases |subjects|
  {
    hide Following, FollowedAll, Inv, MapValid;
    if subjects == [] {
      NothingFollowed(w, refresh, rows);
    } else {
      var rest := subjects[..|subjects| - 1];
      FollowAllFollows(w, rest, refresh, rows);
      FollowAllKeeps(w, rest, refresh, rows);
      var (v, n) := FollowAll(w, map[], rest, refresh, rows);
      InvMap(v);
      InvMap(w);
      FollowingNext(w, v, n, subjects[|subjects| - 1], refresh, rows);
    }
  }

  lemma InvMap(w: Watch)
    requires Inv(w)
    ensures MapValid(w, w.watched)
  {
  }

  lemma NothingFollowed(w: Watch, refresh: bool, rows: Rows)
    ensures FollowedAll(w, w, map[], refresh, rows)
  {
    NothingExtends(w);
  }

  /**
   * A new set of subjects replaces the last one. One that was watched already keeps its record, and is
   * asked about again exactly on a refresh; a new one is asked about always.
   */
  lemma SetAsksAbout(w: Watch, subjects: seq<Subject>, refresh: bool, rows: Rows, s: Subject)
    requires Reachable(w) && !w.closed
    ensures var v := Step(w, Sets(subjects, refresh, rows));
      && (s in v.watched <==> s in subjects)
      && (s in subjects ==>
            var id := v.watched[s];
            && (s in w.watched <==> id < |w.all|) && (s in w.watched ==> id == w.watched[s])
            && if s in w.watched && !refresh then id < |v.all| && v.all[id] == w.all[id]
               else AskedFor(v, id, s, rows) && (s in w.watched ==> w.all[id].gen < v.all[id].gen))
  {
    ReachableInv(w);
    FollowAllFollows(w, subjects, refresh, rows);
    FollowAllKeeps(w, subjects, refresh, rows);
    var (v, n) := FollowAll(w, map[], subjects, refresh, rows);
    if s in subjects { assert Followed(w, v, s, n[s], refresh, rows); }
  }

  // ---- After a refusal ----

  /** The last listing was refused, and nothing has been asked since. */
  ghost predicate LastRefused(held: Watched) {
    && held.listings != [] && held.listings[|held.listings| - 1].outcome.Refused?
    && held.listings[|held.listings| - 1].gen == held.gen
  }

  ghost predicate RetriesValid(w: Watch) {
    forall id | 0 <= id < |w.all| :: w.all[id].sig == Retry <==> LastRefused(w.all[id])
  }

  lemma AskingClears(w: Watch, id: nat, rows: Rows)
    requires HistoryValid(w) && RetriesValid(w) && id < |w.all|
    ensures RetriesValid(ListLocked(w, id, rows))
  {
    assert HeldValid(w, id);
  }

  lemma FollowingRetries(w: Watch, next: map<Subject, nat>, s: Subject, refresh: bool, rows: Rows)
    requires Inv(w) && RetriesValid(w)
    ensures RetriesValid(Following(w, next, s, refresh, rows).0)
  {
    hide ListLocked, RetriesValid;
    if s in w.watched {
      assert w.watched[s] < |w.all|;
      AskingClears(w, w.watched[s], rows);
    } else {
      AddingKeeps(w, s, w.watched);
      AddingRetries(w, s);
      AskingClears(w.(all := w.all + [Watched(s, Missing, 0, [], [], [])]), |w.all|, rows);
    }
  }

  lemma AddingRetries(w: Watch, s: Subject)
    requires RetriesValid(w)
    ensures RetriesValid(w.(all := w.all + [Watched(s, Missing, 0, [], [], [])]))
  {
  }

  lemma {:induction false} FollowAllRetries(w: Watch, subjects: seq<Subject>, refresh: bool, rows: Rows)
    requires Inv(w) && RetriesValid(w)
    ensures RetriesValid(FollowAll(w, map[], subjects, refresh, rows).0)
    decreases |subjects|
  {
    hide Inv, RetriesValid, Following;
    if subjects != [] {
      var rest := subjects[..|subjects| - 1];
      FollowAllRetries(w, rest, refresh, rows);
      FollowAllKeeps(w, rest, refresh, rows);
      var (v, n) := FollowAll(w, map[], rest, refresh, rows);
      FollowingRetries(v, n, subjects[|subjects| - 1], refresh, rows);
    }
  }

  lemma SnapshotRetries(w: Watch, snap: Rows, rows: Rows)
    requires HistoryValid(w) && RetriesValid(w)
    ensures RetriesValid(OnSnapshot(w, snap, rows))
  {
    forall id | 0 <= id < |w.all|
      ensures OnSnapshot(w, snap, rows).all[id].sig == Retry <==> LastRefused(OnSnapshot(w, snap, rows).all[id])
    {
      assert HeldValid(w, id);
    }
  }

  lemma AnswerRetries(w: Watch, id: nat, gen: nat, outcome: Outcome)
    requires HistoryValid(w) && RetriesValid(w) && Enabled(w, Answers(id, gen, outcome))
    ensures RetriesValid(OnAnswer(w, id, gen, outcome))
  {
    assert HeldValid(w, id);
  }

  lemma StepRetries(w: Watch, a: Act)
    requires Inv(w) && RetriesValid(w)
    ensures RetriesValid(Step(w, a))
  {
    if Enabled(w, a) {
      match a
      case Sets(subjects, refresh, rows) => FollowAllRetries(w, subjects, refresh, rows);
      case Snapshots(snap, rows) => SnapshotRetries(w, snap, rows);
      case Answers(id, gen, outcome) => AnswerRetries(w, id, gen, outcome);
      case _ =>
    }
  }

  lemma {:induction false} ExecRetries(acts: seq<Act>)
    ensures Inv(Exec(OPENED, acts)) && RetriesValid(Exec(OPENED, acts))
  {
    hide Step, Inv, RetriesValid;
    if acts == [] {
      OpenedRetries();
    } else {
      ExecRetries(acts[..|acts| - 1]);
      StepKeeps(Exec(OPENED, acts[..|acts| - 1]), acts[|acts| - 1]);
      StepRetries(Exec(OPENED, acts[..|acts| - 1]), acts[|acts| - 1]);
    }
  }

  lemma OpenedRetries()
    ensures Inv(OPENED) && RetriesValid(OPENED)
  {
  }

  /** A list that could not be had is asked for again at the next snapshot with the subject's row, moved or not. */
  lemma ARefusalIsAskedAgain(w: Watch, s: Subject, snap: Rows, rows: Rows)
    requires Reachable(w) && !w.closed && s in w.watched && s in snap
    requires w.watched[s] < |w.all| && LastRefused(w.all[w.watched[s]])
    ensures var v := Step(w, Snapshots(snap, rows));
      AskedFor(v, w.watched[s], s, rows) && v.all[w.watched[s]].gen == w.all[w.watched[s]].gen + 1
  {
    var acts :| w == Exec(OPENED, acts);
    ExecRetries(acts);
    SnapshotListsWhatMoved(w, s, snap, rows);
    assert UpToDate(w, w.watched[s]);
  }

  // ---- The same rows again ----

  /** Once a snapshot's rows have been looked at, the same rows again ask about nothing. */
  lemma SameRowsAskNothing(w: Watch, snap: Rows)
    requires Reachable(w) && !w.closed
    ensures var v := Step(w, Snapshots(snap, snap)); Step(v, Snapshots(snap, snap)) == v
  {
    ReachableInv(w);
    var v := OnSnapshot(w, snap, snap);
    assert Enabled(w, Snapshots(snap, snap)) && Enabled(v, Snapshots(snap, snap));
    forall id | 0 <= id < |v.all| ensures !Moved(v, id, snap) { assert Moved(w, id, snap) || v.all[id] == w.all[id]; }
    assert OnSnapshot(v, snap, snap).all == v.all;
    assert OnSnapshot(v, snap, snap).fetching == v.fetching;
  }
}
