/** The lock sections of a check watch on the objects it really holds. */
module CheckWatches {
  import opened Prelude
  import opened RunGroups
  import opened CheckStream

  class WatchedSubject {
    ghost const subject: Subject
    var sig: Sig
    var gen: nat
    var sent: seq<Key>
    /** History: what is still to be handed over, and every listing made. */
    ghost var queue: seq<RunEvent>
    ghost var listings: seq<Listing>

    ghost function Record(): Watched
      reads this
    {
      Watched(subject, sig, gen, sent, queue, listings)
    }

    constructor (ghost subject: Subject)
      ensures Record() == Watched(subject, Missing, 0, [], [], [])
    {
      this.subject := subject;
      sig, gen, sent := Missing, 0, [];
      queue, listings := [], [];
    }

    /** What brings the page up to date with `groups`. */
    method Events(groups: seq<Group>) returns (events: seq<RunEvent>)
      modifies this`sent
      ensures events == Marked(Body(old(sent), groups))
      ensures sent == Keys(groups)
    {
      var body: seq<Payload> := [];
      for i := 0 to |groups|
        invariant body == Puts(groups[..i])
      {
        body := body + [Put(groups[i])];
      }
      assert groups[..|groups|] == groups;
      for i := 0 to |sent|
        invariant body == Puts(groups) + Gones(sent[..i], groups)
      {
        assert sent[..i + 1][..i] == sent[..i];
        if sent[i] !in Keys(groups) {
          body := body + [Gone(sent[i])];
        }
      }
      assert sent[..|sent|] == sent;
      sent := Keys(groups);
      if body == [] {
        body := [Nothing];
      }
      events := Marked(body);
    }
  }

  ghost function Records(records: seq<WatchedSubject>): (all: seq<Watched>)
    reads records
    ensures |all| == |records| && forall i :: 0 <= i < |records| ==> all[i] == records[i].Record()
  {
    seq(|records|, i requires 0 <= i < |records| reads records => records[i].Record())
  }

  /** `ids` numbers the records of `followed` as `records` does. */
  ghost predicate Numbers(followed: map<Subject, WatchedSubject>, ids: map<Subject, nat>, records: seq<WatchedSubject>) {
    && followed.Keys == ids.Keys
    && forall s :: s in ids ==> ids[s] < |records| && records[ids[s]] == followed[s] && followed[s].subject == s
  }

  lemma NoneNumbered(records: seq<WatchedSubject>)
    ensures Numbers(map[], map[], records)
  {
  }

  lemma NumbersGrow(followed: map<Subject, WatchedSubject>, ids: map<Subject, nat>, records: seq<WatchedSubject>,
                    more: seq<WatchedSubject>, s: Subject, id: nat)
    requires Numbers(followed, ids, records) && records <= more && id < |more| && more[id].subject == s
    ensures Numbers(followed[s := more[id]], ids[s := id], more)
  {
  }

  /** A record once a fetch of it has answered. */
  ghost function Answering(held: Watched, gen: nat, outcome: Outcome): Watched {
    held.(
      sig := if outcome.Refused? then Retry else held.sig,
      sent := if outcome.Listed? then Keys(outcome.groups) else held.sent,
      queue := EventsOf(held.sent, outcome),
      listings := held.listings + [Listing(gen, outcome)])
  }

  /** The watch once every followed subject but those of `left` has been looked at. */
  ghost function Partly(w: Watch, snap: Rows, rows: Rows, left: set<Subject>): Watch {
    w.(all := seq(|w.all|, id requires 0 <= id < |w.all| =>
                if Moved(w, id, snap) && w.all[id].subject !in left
                then w.all[id].(gen := w.all[id].gen + 1, sig := SigOf(rows, w.all[id].subject))
                else w.all[id]),
       fetching := w.fetching + set id | 0 <= id < |w.all| && Moved(w, id, snap) && w.all[id].subject !in left ::
                                  (id, w.all[id].gen + 1))
  }

  lemma PartlyNext(w: Watch, snap: Rows, rows: Rows, left: set<Subject>, s: Subject)
    requires s in left && s in w.watched && w.watched[s] < |w.all| && w.all[w.watched[s]].subject == s
    ensures Partly(w, snap, rows, left).all[w.watched[s]] == w.all[w.watched[s]]
    ensures Partly(w, snap, rows, left - {s})
         == if Moved(w, w.watched[s], snap) then CheckStream.ListLocked(Partly(w, snap, rows, left), w.watched[s], rows)
            else Partly(w, snap, rows, left)
  {
    var id, before, after := w.watched[s], Partly(w, snap, rows, left), Partly(w, snap, rows, left - {s});
    forall i | 0 <= i < |w.all| && i != id ensures after.all[i] == before.all[i] {
      assert w.all[i].subject == s ==> !Current(w, i);
    }
    if Moved(w, id, snap) {
      assert after.all == CheckStream.ListLocked(before, id, rows).all;
      assert after.fetching == before.fetching + {(id, w.all[id].gen + 1)};
    } else {
      assert after.all == before.all;
      assert after.fetching == before.fetching;
    }
  }

  lemma PartlyAll(w: Watch, snap: Rows, rows: Rows)
    requires forall s :: s in w.watched ==> w.watched[s] < |w.all| && w.all[w.watched[s]].subject == s
    ensures Partly(w, snap, rows, w.watched.Keys) == w
    ensures Partly(w, snap, rows, {}) == CheckStream.OnSnapshot(w, snap, rows)
  {
    assert Partly(w, snap, rows, w.watched.Keys).all == w.all;
    assert Partly(w, snap, rows, w.watched.Keys).fetching == w.fetching;
    assert Partly(w, snap, rows, {}).all == CheckStream.OnSnapshot(w, snap, rows).all;
  }

  class CheckWatch {
    var watched: map<Subject, WatchedSubject>
    /** History: every record there has been, the fetches in flight, and what the stream was handed. */
    ghost var records: seq<WatchedSubject>
    ghost var ids: map<Subject, nat>
    ghost var fetching: set<(nat, nat)>
    ghost var out: seq<Sent>

    /** Each subject has a record of its own, and no record is there twice. */
    ghost predicate Valid()
      reads this
    {
      && Numbers(watched, ids, records)
      && forall i, j :: 0 <= i < j < |records| ==> records[i] != records[j]
    }

    /** The watch as the theorems have it. */
    ghost function Model(): Watch
      reads this, records
    {
      Watch(ids, Records(records), fetching, out, false)
    }

    constructor ()
      ensures Valid() && Model() == OPENED
    {
      watched, records, ids, fetching, out := map[], [], map[], {}, [];
    }

    /** listLocked: starts the fetch of `held`, numbered by its new generation. */
    method ListLocked(s: Subject, held: WatchedSubject, rows: Rows, ghost id: nat)
      requires Valid() && id < |records| && records[id] == held && held.subject == s
      modifies held`gen, held`sig, this`fetching
      ensures Valid() && Model() == CheckStream.ListLocked(old(Model()), id, rows)
    {
      held.gen := held.gen + 1;
      held.sig := SigOf(rows, s);
      fetching := fetching + {(id, held.gen)};
      assert Records(records) == CheckStream.ListLocked(old(Model()), id, rows).all;
    }

    /** A new record, kept in the history. */
    method Make(s: Subject) returns (held: WatchedSubject)
      requires Valid()
      modifies this`records
      ensures Valid() && fresh(held) && held.subject == s && records == old(records) + [held]
      ensures Model() == old(Model()).(all := old(Model()).all + [Watched(s, Missing, 0, [], [], [])])
    {
      held := new WatchedSubject(s);
      records := records + [held];
      assert Records(records) == old(Records(records)) + [Watched(s, Missing, 0, [], [], [])];
    }

    /** One round of the loop in set: the record to follow `s` through, listed if it is new or on a refresh. */
    method Follow(s: Subject, refresh: bool, rows: Rows, ghost next: map<Subject, nat>) returns (held: WatchedSubject, ghost id: nat)
      requires Valid()
      modifies records, this`records, this`fetching
      ensures Valid() && id < |records| && records[id] == held && held.subject == s
      ensures old(records) <= records && forall i :: |old(records)| <= i < |records| ==> fresh(records[i])
      ensures (Model(), next[s := id]) == Following(old(Model()), next, s, refresh, rows)
    {
      if s in watched {
        held, id := watched[s], ids[s];
        if refresh {
          ListLocked(s, held, rows, id);
        }
      } else {
        id := |records|;
        held := Make(s);
        ListLocked(s, held, rows, id);
      }
    }

    /** set: the records to follow `subjects` through, and the ids of the new map. */
    method FollowAll(subjects: seq<Subject>, refresh: bool, rows: Rows)
        returns (next: map<Subject, WatchedSubject>, ghost nextIds: map<Subject, nat>)
      requires Valid()
      modifies records, this`records, this`fetching
      ensures Valid() && Numbers(next, nextIds, records)
      ensures (Model(), nextIds) == CheckStream.FollowAll(old(Model()), map[], subjects, refresh, rows)
    {
      hide Following, Numbers, Records;
      next, nextIds := map[], map[];
      NoneNumbered(records);
      ghost var before := Model();
      for i := 0 to |subjects|
        invariant Valid() && Numbers(next, nextIds, records)
        invariant old(records) <= records && forall j :: |old(records)| <= j < |records| ==> fresh(records[j])
        invariant (Model(), nextIds) == CheckStream.FollowAll(before, map[], subjects[..i], refresh, rows)
      {
        ghost var had, id := records, 0;
        var held;
        assert subjects[..i + 1][..i] == subjects[..i];
        held, id := Follow(subjects[i], refresh, rows, nextIds);
        NumbersGrow(next, nextIds, had, records, subjects[i], id);
        next, nextIds := next[subjects[i] := held], nextIds[subjects[i] := id];
      }
      assert subjects[..|subjects|] == subjects;
    }

    /** set. */
    method Set(subjects: seq<Subject>, refresh: bool, rows: Rows)
      requires Valid()
      modifies this, records
      ensures Valid() && Model() == OnSet(old(Model()), subjects, refresh, rows)
    {
      hide CheckStream.FollowAll;
      watched, ids := FollowAll(subjects, refresh, rows);
    }

    /** One round of the loop in onSnapshot. */
    method LookAt(s: Subject, held: WatchedSubject, snap: Rows, rows: Rows)
      requires Valid() && s in watched && watched[s] == held
      modifies held`gen, held`sig, this`fetching
      ensures Valid()
      ensures s in ids && ids[s] < |old(Model()).all|
        && Model() == if Moved(old(Model()), ids[s], snap) then CheckStream.ListLocked(old(Model()), ids[s], rows) else old(Model())
    {
      if s in snap && Row(snap[s]) != held.sig {
        ListLocked(s, held, rows, ids[s]);
      }
    }

    /** onSnapshot, over the followed subjects in any order. */
    method OnSnapshot(snap: Rows, rows: Rows)
      requires Valid()
      modifies records, this`fetching
      ensures Valid() && Model() == CheckStream.OnSnapshot(old(Model()), snap, rows)
    {
      ghost var before := Model();
      PartlyAll(before, snap, rows);
      hide Partly, CheckStream.ListLocked, CheckStream.OnSnapshot;
      var left := watched.Keys;
      while left != {}
        invariant Valid() && left <= watched.Keys
        invariant Model() == Partly(before, snap, rows, left)
        decreases left
      {
        var s :| s in left;
        assert s in watched && s in ids && before.watched == ids;
        PartlyNext(before, snap, rows, left, s);
        LookAt(s, watched[s], snap, rows);
        left := left - {s};
      }
    }

    /** What a fetch that is still the newest makes of its record, and sends. */
    method Work(held: WatchedSubject, gen: nat, outcome: Outcome) returns (events: seq<RunEvent>)
      modifies held
      ensures held.Record() == Answering(old(held.Record()), gen, outcome)
      ensures events == held.queue
    {
      held.listings := held.listings + [Listing(gen, outcome)];
      match outcome {
        case Refused(why) =>
          held.sig := Retry;
          events := [RunEvent(Failed(why), false)];
        case Listed(groups) =>
          events := held.Events(groups);
      }
      held.queue := events;
    }

    /** The section of list that works out what a fetch sends, under the send lock:
        nothing when it was overtaken or its subject let go. */
    method Answer(s: Subject, held: WatchedSubject, gen: nat, outcome: Outcome, ghost id: nat) returns (events: seq<RunEvent>)
      requires Valid() && id < |records| && records[id] == held && held.subject == s && held.queue == []
      modifies held, this`fetching
      ensures Valid() && Model() == OnAnswer(old(Model()), id, gen, outcome)
      ensures events == held.queue
      ensures gen != old(held.gen) ==> events == []
    {
      ghost var before := Model();
      assert forall i :: 0 <= i < |records| && i != id ==> records[i] != held;
      events := [];
      fetching := fetching - {(id, gen)};
      if s in watched && watched[s] == held && held.gen == gen {
        events := Work(held, gen, outcome);
        assert Records(records) == before.all[id := Answering(before.all[id], gen, outcome)];
      } else {
        assert Records(records) == before.all;
      }
    }

    /** deliver: the stream is handed the next event of `held`. */
    method Deliver(held: WatchedSubject, event: RunEvent, ghost id: nat)
      requires Valid() && id < |records| && records[id] == held && held.queue != [] && held.queue[0] == event
      modifies held`queue, this`out
      ensures Valid() && Model() == OnDeliver(old(Model()), id)
    {
      out := out + [Sent(id, event)];
      held.queue := held.queue[1..];
      assert Records(records) == OnDeliver(old(Model()), id).all;
    }
  }
}
