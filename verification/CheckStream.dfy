/** The check stream: a page follows the job lists of a few subjects, one listing after another. */
module CheckStream {
  import opened Prelude
  import opened RunGroups

  // A listing is a run of events: every group, then each key the last listing
  // sent and this one lacks, the last event marked final. A failed fetch sends
  // one error in its place.

  datatype Payload = Put(group: Group) | Gone(key: Key) | Nothing | Failed(why: string)

  datatype RunEvent = RunEvent(payload: Payload, final: bool)

  // ---- One listing ----

  function Gones(sent: seq<Key>, groups: seq<Group>): seq<Payload> {
    if sent == [] then []
    else
      var last := sent[|sent| - 1];
      Gones(sent[..|sent| - 1], groups) + (if last in Keys(groups) then [] else [Gone(last)])
  }

  function Puts(groups: seq<Group>): seq<Payload> {
    seq(|groups|, i requires 0 <= i < |groups| => Put(groups[i]))
  }

  /** What a listing of `groups` says to a page that was last sent `sent`. */
  function Body(sent: seq<Key>, groups: seq<Group>): (body: seq<Payload>)
    ensures body != []
  {
    var body := Puts(groups) + Gones(sent, groups);
    if body == [] then [Nothing] else body
  }

  function Marked(body: seq<Payload>): seq<RunEvent> {
    seq(|body|, i requires 0 <= i < |body| => RunEvent(body[i], i == |body| - 1))
  }

  // ---- What the page makes of the events ----

  type Page = map<Key, Group>

  function Applied(page: Page, p: Payload): Page {
    match p
    case Put(group) => page[group.key := group]
    case Gone(key) => page - {key}
    case Nothing => map[]
    case Failed(_) => map[]
  }

  function Fold(page: Page, events: seq<RunEvent>): Page {
    if events == [] then page
    else Applied(Fold(page, events[..|events| - 1]), events[|events| - 1].payload)
  }

  /** The page holds exactly `groups`. */
  ghost predicate Shows(page: Page, groups: seq<Group>) {
    && page.Keys == (set g | g in groups :: g.key)
    && (forall g :: g in groups ==> page[g.key] == g)
  }

  lemma {:induction false} FoldConcat(page: Page, a: seq<RunEvent>, b: seq<RunEvent>)
    ensures Fold(page, a + b) == Fold(Fold(page, a), b)
  {
    if b == [] {
      assert a + b == a;
    } else {
      assert (a + b)[..|a + b| - 1] == a + b[..|b| - 1];
      FoldConcat(page, a, b[..|b| - 1]);
    }
  }

  ghost predicate PutsApplied(page: Page, groups: seq<Group>, result: Page) {
    && result.Keys == page.Keys + (set g | g in groups :: g.key)
    && (forall g :: g in groups ==> result[g.key] == g)
  }

  lemma {:induction false} FoldPuts(page: Page, groups: seq<Group>, events: seq<RunEvent>)
    requires Distinct(groups) && |events| == |groups|
    requires forall i :: 0 <= i < |groups| ==> events[i].payload == Put(groups[i])
    ensures PutsApplied(page, groups, Fold(page, events))
  {
    if groups != [] {
      var n := |groups| - 1;
      FoldPuts(page, groups[..n], events[..n]);
      assert groups == groups[..n] + [groups[n]];
      forall g | g in groups[..n] ensures g.key != groups[n].key {
        var i :| 0 <= i < n && groups[i] == g;
      }
    }
  }

  /** The keys last sent that `groups` lacks. */
  function Lacking(sent: seq<Key>, groups: seq<Group>): set<Key> {
    set k | k in sent && k !in Keys(groups)
  }

  lemma LackingNext(sent: seq<Key>, groups: seq<Group>)
    requires sent != []
    ensures var most, last := sent[..|sent| - 1], sent[|sent| - 1];
      Lacking(sent, groups) == Lacking(most, groups) + (if last in Keys(groups) then {} else {last})
  {
    assert sent == sent[..|sent| - 1] + [sent[|sent| - 1]];
  }

  lemma {:induction false} FoldGones(page: Page, sent: seq<Key>, groups: seq<Group>, events: seq<RunEvent>)
    requires |events| == |Gones(sent, groups)|
    requires forall i :: 0 <= i < |events| ==> events[i].payload == Gones(sent, groups)[i]
    ensures Fold(page, events) == page - Lacking(sent, groups)
  {
    hide Keys, Lacking;
    if sent == [] {
      assert Lacking(sent, groups) == {} by { NothingLacks(groups); }
    } else {
      var n, last := |sent| - 1, sent[|sent| - 1];
      LackingNext(sent, groups);
      if last in Keys(groups) {
        FoldGones(page, sent[..n], groups, events);
      } else {
        FoldGones(page, sent[..n], groups, events[..|events| - 1]);
        assert page - Lacking(sent[..n], groups) - {last} == page - (Lacking(sent[..n], groups) + {last});
      }
    }
  }

  lemma NothingLacks(groups: seq<Group>)
    ensures Lacking([], groups) == {}
  {
  }

  lemma KeysAreKeys(groups: seq<Group>)
    ensures (set k | k in Keys(groups)) == (set g | g in groups :: g.key)
  {
    forall k | k in Keys(groups) ensures k in (set g | g in groups :: g.key) {
      var i :| 0 <= i < |groups| && Keys(groups)[i] == k;
      assert groups[i] in groups;
    }
    forall g | g in groups ensures g.key in Keys(groups) {
      var i :| 0 <= i < |groups| && groups[i] == g;
      assert Keys(groups)[i] == g.key;
    }
  }

  /** A listing brings any page that holds no key the server has forgotten to
      exactly the listed groups. */
  lemma ListingReplaces(page: Page, sent: seq<Key>, groups: seq<Group>)
    requires Distinct(groups)
    requires page.Keys <= set k | k in sent
    ensures Shows(Fold(page, Marked(Body(sent, groups))), groups)
  {
    var events := Marked(Body(sent, groups));
    KeysAreKeys(groups);
    if Puts(groups) + Gones(sent, groups) == [] {
      assert Fold(page, events) == map[] by {
        assert events[..0] == [];
      }
    } else {
      var puts, gones := events[..|groups|], events[|groups|..];
      FoldPuts(page, groups, puts);
      FoldGones(Fold(page, puts), sent, groups, gones);
      assert events == puts + gones;
      FoldConcat(page, puts, gones);
    }
  }

  // ---- The watch ----

  datatype Kind = PullRequest | MainBranch

  datatype Subject = Subject(kind: Kind, forge: string, fullName: string, number: int)

  /** What a subject's row said when its list was last asked for. `Retry` is no
      row's signature, so the next snapshot lists again. */
  datatype Sig = Missing | Row(sig: string) | Retry

  /** The signatures of a snapshot's rows. */
  type Rows = map<Subject, string>

  function SigOf(rows: Rows, s: Subject): Sig {
    if s in rows then Row(rows[s]) else Missing
  }

  datatype Outcome = Listed(groups: seq<Group>) | Refused(why: string)

  /** What a finished fetch sends, if it is still the newest. */
  function EventsOf(sent: seq<Key>, outcome: Outcome): seq<RunEvent> {
    match outcome
    case Listed(groups) => Marked(Body(sent, groups))
    case Refused(why) => [RunEvent(Failed(why), false)]
  }

  /** A watched subject. The queue is what its listing has worked out and not yet
      handed over, which the send lock covers; the listings are its history. */
  datatype Watched = Watched(
    subject: Subject, sig: Sig, gen: nat, sent: seq<Key>,
    queue: seq<RunEvent>, listings: seq<Listing>)

  datatype Listing = Listing(gen: nat, outcome: Outcome)

  datatype Sent = Sent(id: nat, event: RunEvent)

  /** `watched` numbers the subjects followed now, `all` every one there has been.
      `fetching` holds the fetches in flight, `out` what the stream was handed. */
  datatype Watch = Watch(
    watched: map<Subject, nat>, all: seq<Watched>, fetching: set<(nat, nat)>, out: seq<Sent>, closed: bool)

  const OPENED := Watch(map[], [], {}, [], false)

  function ListLocked(w: Watch, id: nat, rows: Rows): Watch
    requires id < |w.all|
  {
    var held := w.all[id];
    w.(all := w.all[id := held.(gen := held.gen + 1, sig := SigOf(rows, held.subject))],
       fetching := w.fetching + {(id, held.gen + 1)})
  }

  /** One round of the loop in set: `next` is the map that will replace `watched`. */
  function Following(w: Watch, next: map<Subject, nat>, s: Subject, refresh: bool, rows: Rows): (Watch, map<Subject, nat>) {
    var known := s in w.watched && w.watched[s] < |w.all|;
    var id := if known then w.watched[s] else |w.all|;
    var v := if known then w else w.(all := w.all + [Watched(s, Missing, 0, [], [], [])]);
    (if !known || refresh then ListLocked(v, id, rows) else v, next[s := id])
  }

  function FollowAll(w: Watch, next: map<Subject, nat>, subjects: seq<Subject>, refresh: bool, rows: Rows): (Watch, map<Subject, nat>)
    decreases |subjects|
  {
    if subjects == [] then (w, next)
    else
      var (v, n) := FollowAll(w, next, subjects[..|subjects| - 1], refresh, rows);
      Following(v, n, subjects[|subjects| - 1], refresh, rows)
  }

  function OnSet(w: Watch, subjects: seq<Subject>, refresh: bool, rows: Rows): Watch {
    var (v, next) := FollowAll(w, map[], subjects, refresh, rows);
    v.(watched := next)
  }

  /** Whether a snapshot shows a row of a followed subject that has moved. */
  predicate Moved(w: Watch, id: nat, snap: Rows)
    requires id < |w.all|
  {
    var held := w.all[id];
    Current(w, id) && held.subject in snap && Row(snap[held.subject]) != held.sig
  }

  predicate Current(w: Watch, id: nat)
    requires id < |w.all|
  {
    w.all[id].subject in w.watched && w.watched[w.all[id].subject] == id
  }

  /** onSnapshot: `rows` is what the current snapshot says by the time each list starts. */
  function OnSnapshot(w: Watch, snap: Rows, rows: Rows): Watch {
    w.(all := seq(|w.all|, id requires 0 <= id < |w.all| =>
                if Moved(w, id, snap)
                then w.all[id].(gen := w.all[id].gen + 1, sig := SigOf(rows, w.all[id].subject))
                else w.all[id]),
       fetching := w.fetching + set id | 0 <= id < |w.all| && Moved(w, id, snap) :: (id, w.all[id].gen + 1))
  }

  /** A fetch answers, once it holds the send lock. */
  function OnAnswer(w: Watch, id: nat, gen: nat, outcome: Outcome): Watch
    requires id < |w.all|
  {
    var held := w.all[id];
    var v := w.(fetching := w.fetching - {(id, gen)});
    if !Current(w, id) || held.gen != gen then v
    else
      v.(all := v.all[id := held.(
        sig := if outcome.Refused? then Retry else held.sig,
        sent := if outcome.Listed? then Keys(outcome.groups) else held.sent,
        queue := EventsOf(held.sent, outcome),
        listings := held.listings + [Listing(gen, outcome)])])
  }

  function OnDeliver(w: Watch, id: nat): Watch
    requires id < |w.all| && w.all[id].queue != []
  {
    var held := w.all[id];
    w.(all := w.all[id := held.(queue := held.queue[1..])], out := w.out + [Sent(id, held.queue[0])])
  }

  datatype Act =
    | Sets(subjects: seq<Subject>, refresh: bool, rows: Rows)
    | Snapshots(snap: Rows, rows: Rows)
    | Answers(id: nat, gen: nat, outcome: Outcome)
    | Delivers(id: nat)
    | Closes

  /** The groups of an answer are a grouping of its checks, so their keys differ. */
  ghost predicate Enabled(w: Watch, a: Act) {
    && !w.closed
    && match a
       case Answers(id, gen, outcome) =>
         id < |w.all| && (id, gen) in w.fetching && w.all[id].queue == [] && (outcome.Listed? ==> Distinct(outcome.groups))
       case Delivers(id) => id < |w.all| && w.all[id].queue != []
       case _ => true
  }

  ghost function Step(w: Watch, a: Act): Watch {
    if !Enabled(w, a) then w
    else
      match a
      case Sets(subjects, refresh, rows) => OnSet(w, subjects, refresh, rows)
      case Snapshots(snap, rows) => OnSnapshot(w, snap, rows)
      case Answers(id, gen, outcome) => OnAnswer(w, id, gen, outcome)
      case Delivers(id) => OnDeliver(w, id)
      case Closes => w.(closed := true)
  }

  ghost function Exec(w: Watch, acts: seq<Act>): Watch {
    if acts == [] then w else Step(Exec(w, acts[..|acts| - 1]), acts[|acts| - 1])
  }

  ghost predicate Reachable(w: Watch) {
    exists acts :: w == Exec(OPENED, acts)
  }

  // ---- What every run keeps ----

  /** The keys the page was last sent. */
  function SentAfter(listings: seq<Listing>): seq<Key> {
    if listings == [] then []
    else
      match listings[|listings| - 1].outcome
      case Listed(groups) => Keys(groups)
      case Refused(_) => SentAfter(listings[..|listings| - 1])
  }

  /** The events of listings made one after the other. */
  function Rendered(listings: seq<Listing>): seq<RunEvent> {
    if listings == [] then []
    else
      var before := listings[..|listings| - 1];
      Rendered(before) + EventsOf(SentAfter(before), listings[|listings| - 1].outcome)
  }

  /** What the stream was handed for one watched subject. */
  function Delivered(out: seq<Sent>, id: nat): seq<RunEvent> {
    if out == [] then []
    else
      var last := out[|out| - 1];
      Delivered(out[..|out| - 1], id) + (if last.id == id then [last.event] else [])
  }

  ghost predicate ListingsValid(gen: nat, listings: seq<Listing>) {
    && (forall i :: 0 <= i < |listings| ==> listings[i].gen <= gen)
    && (forall i, j :: 0 <= i < j < |listings| ==> listings[i].gen < listings[j].gen)
    && (forall i :: 0 <= i < |listings| && listings[i].outcome.Listed? ==> Distinct(listings[i].outcome.groups))
  }

  /** The last listing came from the newest fetch. */
  ghost predicate Answered(held: Watched) {
    held.listings != [] && held.listings[|held.listings| - 1].gen == held.gen
  }

  /** The newest fetch is in flight, or its listing was the last. */
  ghost predicate UpToDate(w: Watch, id: nat)
    requires id < |w.all|
  {
    (id, w.all[id].gen) in w.fetching || Answered(w.all[id])
  }

  ghost predicate HeldValid(w: Watch, id: nat)
    requires id < |w.all|
  {
    var held := w.all[id];
    && held.sent == SentAfter(held.listings)
    && Delivered(w.out, id) + held.queue == Rendered(held.listings)
    && ListingsValid(held.gen, held.listings)
    && ((id, held.gen) in w.fetching ==> !Answered(held))
  }

  ghost predicate MapValid(w: Watch, m: map<Subject, nat>) {
    forall s :: s in m ==> m[s] < |w.all| && w.all[m[s]].subject == s && UpToDate(w, m[s])
  }

  ghost predicate FetchesValid(w: Watch) {
    forall f :: f in w.fetching ==> f.0 < |w.all| && f.1 <= w.all[f.0].gen
  }

  ghost predicate HistoryValid(w: Watch) {
    && FetchesValid(w)
    && (forall x :: x in w.out ==> x.id < |w.all|)
    && (forall id :: 0 <= id < |w.all| ==> HeldValid(w, id))
  }

  ghost predicate Inv(w: Watch) {
    HistoryValid(w) && MapValid(w, w.watched)
  }

  lemma ListLockedKeeps(w: Watch, id: nat, rows: Rows, m: map<Subject, nat>)
    requires HistoryValid(w) && MapValid(w, m) && id < |w.all|
    ensures var v := ListLocked(w, id, rows);
      HistoryValid(v) && MapValid(v, m) && (id, v.all[id].gen) in v.fetching
  {
    var v := ListLocked(w, id, rows);
    forall i | 0 <= i < |v.all| ensures HeldValid(v, i) { assert HeldValid(w, i); }
    forall s | s in m ensures m[s] < |v.all| && v.all[m[s]].subject == s && UpToDate(v, m[s]) {
      assert UpToDate(w, m[s]);
    }
  }

  lemma {:induction false} NotYetDelivered(out: seq<Sent>, id: nat)
    requires forall x :: x in out ==> x.id < id
    ensures Delivered(out, id) == []
  {
    if out != [] {
      assert out[|out| - 1] in out;
      NotYetDelivered(out[..|out| - 1], id);
    }
  }

  lemma AddingKeeps(w: Watch, s: Subject, m: map<Subject, nat>)
    requires HistoryValid(w) && MapValid(w, m)
    ensures var v := w.(all := w.all + [Watched(s, Missing, 0, [], [], [])]); HistoryValid(v) && MapValid(v, m)
  {
    var v := w.(all := w.all + [Watched(s, Missing, 0, [], [], [])]);
    NotYetDelivered(w.out, |w.all|);
    forall i | 0 <= i < |v.all| ensures HeldValid(v, i) {
      if i < |w.all| { assert HeldValid(w, i); }
    }
    forall s | s in m ensures m[s] < |v.all| && v.all[m[s]].subject == s && UpToDate(v, m[s]) {
      assert UpToDate(w, m[s]);
    }
  }

  lemma FollowingKeeps(w: Watch, next: map<Subject, nat>, s: Subject, refresh: bool, rows: Rows)
    requires Inv(w) && MapValid(w, next)
    ensures var (v, n) := Following(w, next, s, refresh, rows); Inv(v) && MapValid(v, n)
  {
    if s in w.watched {
      if refresh {
        ListLockedKeeps(w, w.watched[s], rows, w.watched);
        ListLockedKeeps(w, w.watched[s], rows, next);
      }
    } else {
      AddingKeeps(w, s, w.watched);
      AddingKeeps(w, s, next);
      var added := w.(all := w.all + [Watched(s, Missing, 0, [], [], [])]);
      ListLockedKeeps(added, |w.all|, rows, w.watched);
      ListLockedKeeps(added, |w.all|, rows, next);
    }
  }

  lemma {:induction false} FollowAllKeeps(w: Watch, subjects: seq<Subject>, refresh: bool, rows: Rows)
    requires Inv(w)
    ensures var (v, n) := FollowAll(w, map[], subjects, refresh, rows);
      && Inv(v) && MapValid(v, n) && v.watched == w.watched && v.out == w.out && v.closed == w.closed
      && n.Keys == set s | s in subjects
    decreases |subjects|
  {
    if subjects != [] {
      var rest := subjects[..|subjects| - 1];
      FollowAllKeeps(w, rest, refresh, rows);
      var (v, n) := FollowAll(w, map[], rest, refresh, rows);
      FollowingKeeps(v, n, subjects[|subjects| - 1], refresh, rows);
      assert subjects == rest + [subjects[|subjects| - 1]];
    }
  }

  lemma SetKeeps(w: Watch, subjects: seq<Subject>, refresh: bool, rows: Rows)
    requires Inv(w)
    ensures Inv(OnSet(w, subjects, refresh, rows))
  {
    FollowAllKeeps(w, subjects, refresh, rows);
    var (v, next) := FollowAll(w, map[], subjects, refresh, rows);
    var u := v.(watched := next);
    forall i | 0 <= i < |u.all| ensures HeldValid(u, i) { assert HeldValid(v, i); }
    forall s | s in next ensures next[s] < |u.all| && u.all[next[s]].subject == s && UpToDate(u, next[s]) {
      assert UpToDate(v, next[s]);
    }
  }

  lemma SnapshotKeeps(w: Watch, snap: Rows, rows: Rows)
    requires Inv(w)
    ensures Inv(OnSnapshot(w, snap, rows))
  {
    var v := OnSnapshot(w, snap, rows);
    forall i | 0 <= i < |v.all| ensures HeldValid(v, i) { assert HeldValid(w, i); }
    forall s | s in v.watched ensures v.watched[s] < |v.all| && v.all[v.watched[s]].subject == s && UpToDate(v, v.watched[s]) {
      assert UpToDate(w, w.watched[s]);
    }
  }

  /** Listing `l` follows `listings`. */
  lemma OneMoreListing(listings: seq<Listing>, l: Listing)
    ensures Rendered(listings + [l]) == Rendered(listings) + EventsOf(SentAfter(listings), l.outcome)
    ensures SentAfter(listings + [l]) == if l.outcome.Listed? then Keys(l.outcome.groups) else SentAfter(listings)
  {
    assert (listings + [l])[..|listings|] == listings;
  }

  lemma ListingsGrow(gen: nat, listings: seq<Listing>, outcome: Outcome)
    requires ListingsValid(gen, listings)
    requires listings != [] ==> listings[|listings| - 1].gen < gen
    requires outcome.Listed? ==> Distinct(outcome.groups)
    ensures ListingsValid(gen, listings + [Listing(gen, outcome)])
  {
    forall i | 0 <= i < |listings| ensures listings[i].gen < gen {
      if i < |listings| - 1 { assert listings[i].gen < listings[|listings| - 1].gen; }
    }
  }

  lemma ListingAdds(w: Watch, id: nat, gen: nat, outcome: Outcome)
    requires Inv(w) && Enabled(w, Answers(id, gen, outcome))
    requires Current(w, id) && w.all[id].gen == gen
    ensures HeldValid(OnAnswer(w, id, gen, outcome), id)
    ensures Answered(OnAnswer(w, id, gen, outcome).all[id])
  {
    hide EventsOf, Rendered, SentAfter, Delivered, MapValid, FetchesValid;
    var held := w.all[id];
    assert HeldValid(w, id);
    assert Delivered(w.out, id) + [] == Delivered(w.out, id);
    hide Inv, HistoryValid;
    OneMoreListing(held.listings, Listing(gen, outcome));
    ListingsGrow(gen, held.listings, outcome);
  }

  lemma AnswerKeeps(w: Watch, id: nat, gen: nat, outcome: Outcome)
    requires Inv(w) && Enabled(w, Answers(id, gen, outcome))
    ensures Inv(OnAnswer(w, id, gen, outcome))
  {
    var v := OnAnswer(w, id, gen, outcome);
    if Current(w, id) && w.all[id].gen == gen {
      ListingAdds(w, id, gen, outcome);
    } else {
      assert HeldValid(w, id);
      assert HeldValid(v, id);
    }
    forall i | 0 <= i < |v.all| && i != id ensures HeldValid(v, i) { assert HeldValid(w, i); }
    forall s | s in v.watched ensures v.watched[s] < |v.all| && v.all[v.watched[s]].subject == s && UpToDate(v, v.watched[s]) {
      assert UpToDate(w, w.watched[s]);
    }
  }

  lemma DeliveredGrows(out: seq<Sent>, x: Sent, id: nat)
    ensures Delivered(out + [x], id) == if x.id == id then Delivered(out, id) + [x.event] else Delivered(out, id)
  {
    assert (out + [x])[..|out|] == out;
  }

  lemma HandedOver(delivered: seq<RunEvent>, queue: seq<RunEvent>)
    requires queue != []
    ensures (delivered + [queue[0]]) + queue[1..] == delivered + queue
  {
  }

  lemma DeliverKeepsHeld(w: Watch, id: nat, i: nat)
    requires Enabled(w, Delivers(id)) && i < |w.all| && HeldValid(w, i)
    ensures HeldValid(OnDeliver(w, id), i)
  {
    var v := OnDeliver(w, id);
    DeliveredGrows(w.out, Sent(id, w.all[id].queue[0]), i);
    if i == id {
      HandedOver(Delivered(w.out, id), w.all[id].queue);
      assert Delivered(v.out, id) + v.all[id].queue == Delivered(w.out, id) + w.all[id].queue;
    } else {
      assert v.all[i] == w.all[i];
    }
  }

  lemma DeliverKeeps(w: Watch, id: nat)
    requires Inv(w) && Enabled(w, Delivers(id))
    ensures Inv(OnDeliver(w, id))
  {
    var v := OnDeliver(w, id);
    forall i | 0 <= i < |v.all| ensures HeldValid(v, i) {
      assert HeldValid(w, i);
      DeliverKeepsHeld(w, id, i);
    }
    forall s | s in v.watched ensures v.watched[s] < |v.all| && v.all[v.watched[s]].subject == s && UpToDate(v, v.watched[s]) {
      assert UpToDate(w, w.watched[s]);
    }
  }

  lemma StepKeeps(w: Watch, a: Act)
    requires Inv(w)
    ensures Inv(Step(w, a))
  {
    if Enabled(w, a) {
      match a
      case Sets(subjects, refresh, rows) => SetKeeps(w, subjects, refresh, rows);
      case Snapshots(snap, rows) => SnapshotKeeps(w, snap, rows);
      case Answers(id, gen, outcome) => AnswerKeeps(w, id, gen, outcome);
      case Delivers(id) => DeliverKeeps(w, id);
      case Closes => ClosingKeeps(w);
    }
  }

  lemma ClosingKeeps(w: Watch)
    requires Inv(w)
    ensures Inv(w.(closed := true))
  {
    var v := w.(closed := true);
    forall i | 0 <= i < |v.all| ensures HeldValid(v, i) { assert HeldValid(w, i); }
    forall s | s in v.watched ensures v.watched[s] < |v.all| && v.all[v.watched[s]].subject == s && UpToDate(v, v.watched[s]) {
      assert UpToDate(w, w.watched[s]);
    }
  }

  lemma {:induction false} ExecKeeps(w: Watch, acts: seq<Act>)
    requires Inv(w)
    ensures Inv(Exec(w, acts))
  {
    if acts != [] {
      ExecKeeps(w, acts[..|acts| - 1]);
      StepKeeps(Exec(w, acts[..|acts| - 1]), acts[|acts| - 1]);
    }
  }

  lemma ReachableInv(w: Watch)
    requires Reachable(w)
    ensures Inv(w)
  {
    var acts :| w == Exec(OPENED, acts);
    ExecKeeps(OPENED, acts);
  }

  // ---- The guarantees ----

  /** What reaches the page for one watched subject is whole listings, in the
      order they were worked out, the last one perhaps still being handed over.
      Each came from a newer fetch than the one before it. */
  lemma WholeListingsInOrder(w: Watch, id: nat)
    requires Reachable(w) && id < |w.all|
    ensures Delivered(w.out, id) + w.all[id].queue == Rendered(w.all[id].listings)
    ensures forall i, j :: 0 <= i < j < |w.all[id].listings| ==> w.all[id].listings[i].gen < w.all[id].listings[j].gen
  {
    ReachableInv(w);
    assert HeldValid(w, id);
  }

  /** A listing is closed by one final event, its last; a refusal is one event
      that is not final. */
  lemma OneFinalEach(sent: seq<Key>, outcome: Outcome, i: nat)
    requires i < |EventsOf(sent, outcome)|
    ensures var events := EventsOf(sent, outcome);
      if outcome.Refused? then |events| == 1 && events[0] == RunEvent(Failed(outcome.why), false)
      else (events[i].final <==> i == |events| - 1) && !events[i].payload.Failed?
  {
    if outcome.Listed? {
      var gones := Gones(sent, outcome.groups);
      OnlyGones(sent, outcome.groups);
      assert forall p :: p in gones ==> p.Gone?;
      var n := |outcome.groups|;
      if n <= i < n + |gones| { assert gones[i - n] in gones; }
    }
  }

  lemma {:induction false} OnlyGones(sent: seq<Key>, groups: seq<Group>)
    ensures forall p :: p in Gones(sent, groups) ==> p.Gone?
  {
    if sent != [] { OnlyGones(sent[..|sent| - 1], groups); }
  }

  /** The newest fetch of a watched subject is never lost: it is in flight, or
      its listing is the last one made. */
  lemma NewestIsNotLost(w: Watch, s: Subject)
    requires Reachable(w) && s in w.watched
    ensures var id := w.watched[s];
      && id < |w.all| && w.all[id].subject == s
      && ((id, w.all[id].gen) in w.fetching
          || (w.all[id].listings != [] && w.all[id].listings[|w.all[id].listings| - 1].gen == w.all[id].gen))
  {
    ReachableInv(w);
    assert UpToDate(w, w.watched[s]);
  }

  /** What the page should hold after `listings`: the last one's groups, or
      nothing after a refusal. */
  function LastGroups(listings: seq<Listing>): seq<Group> {
    if listings == [] then []
    else
      match listings[|listings| - 1].outcome
      case Listed(groups) => groups
      case Refused(_) => []
  }

  lemma OutcomeShows(page: Page, sent: seq<Key>, outcome: Outcome)
    requires page.Keys <= set k | k in sent
    requires outcome.Listed? ==> Distinct(outcome.groups)
    ensures var after := Fold(page, EventsOf(sent, outcome));
      if outcome.Listed? then Shows(after, outcome.groups) && after.Keys <= set k | k in Keys(outcome.groups) else after == map[]
  {
    match outcome
    case Listed(groups) =>
      ListingReplaces(page, sent, groups);
      KeysAreKeys(groups);
    case Refused(why) =>
      assert EventsOf(sent, outcome)[..0] == [];
  }

  lemma {:induction false} RenderedShows(listings: seq<Listing>)
    requires forall i :: 0 <= i < |listings| && listings[i].outcome.Listed? ==> Distinct(listings[i].outcome.groups)
    ensures Shows(Fold(map[], Rendered(listings)), LastGroups(listings))
    ensures Fold(map[], Rendered(listings)).Keys <= set k | k in SentAfter(listings)
  {
    if listings != [] {
      var before, last := listings[..|listings| - 1], listings[|listings| - 1].outcome;
      RenderedShows(before);
      FoldConcat(map[], Rendered(before), EventsOf(SentAfter(before), last));
      OutcomeShows(Fold(map[], Rendered(before)), SentAfter(before), last);
    }
  }

  /** Replication: whenever nothing of a subject's listing is still to be handed
      over, folding its events over an empty page gives exactly the groups of the
      last listing, and an empty page when that was refused. */
  lemma PageShowsTheLastListing(w: Watch, id: nat)
    requires Reachable(w) && id < |w.all| && w.all[id].queue == []
    ensures Shows(Fold(map[], Delivered(w.out, id)), LastGroups(w.all[id].listings))
  {
    ReachableInv(w);
    assert HeldValid(w, id);
    assert Delivered(w.out, id) + [] == Delivered(w.out, id);
    RenderedShows(w.all[id].listings);
  }

  /** A snapshot lists a watched subject again exactly when its row is there and
      does not read as it did when the subject was last asked for; after a
      refusal, whenever its row is there. */
  lemma SnapshotListsWhatMoved(w: Watch, s: Subject, snap: Rows, rows: Rows)
    requires Reachable(w) && !w.closed && s in w.watched
    ensures var id := w.watched[s]; var v := Step(w, Snapshots(snap, rows));
      && id < |w.all| == |v.all|
      && (if s in snap && w.all[id].sig != Row(snap[s])
          then v.all[id].gen == w.all[id].gen + 1 && (id, v.all[id].gen) in v.fetching
               && v.all[id].sig == (if s in rows then Row(rows[s]) else Missing)
          else v.all[id] == w.all[id])
      && (w.all[id].sig == Retry && s in snap ==> (id, w.all[id].gen + 1) in v.fetching)
  {
    ReachableInv(w);
    assert UpToDate(w, w.watched[s]);
  }

  // ---- Overtaken fetches ----

  /** What following the subjects leaves of the records there are: their subjects
      and listings stay, and their fetches are only ever overtaken. A new record
      is of a subject that was not followed, and has nothing to hand over. */
  ghost predicate Extends(w: Watch, v: Watch) {
    && |w.all| <= |v.all| && v.out == w.out && v.watched == w.watched
    && (forall j :: 0 <= j < |w.all| ==>
          && v.all[j].subject == w.all[j].subject && v.all[j].queue == w.all[j].queue
          && v.all[j].listings == w.all[j].listings && w.all[j].gen <= v.all[j].gen)
    && (forall j :: |w.all| <= j < |v.all| ==> v.all[j].subject !in w.watched && v.all[j].queue == [])
  }

  lemma NothingExtends(w: Watch)
    ensures Extends(w, w)
  {
  }

  lemma FollowingExtends(w: Watch, v: Watch, next: map<Subject, nat>, s: Subject, refresh: bool, rows: Rows)
    requires Extends(w, v) && MapValid(w, w.watched)
    ensures Extends(w, Following(v, next, s, refresh, rows).0)
  {
  }

  lemma {:induction false} FollowAllExtends(w: Watch, subjects: seq<Subject>, refresh: bool, rows: Rows)
    requires Inv(w)
    ensures Extends(w, FollowAll(w, map[], subjects, refresh, rows).0)
    decreases |subjects|
  {
    hide Following, Extends;
    if subjects == [] {
      NothingExtends(w);
    } else {
      var rest := subjects[..|subjects| - 1];
      var (v, next) := FollowAll(w, map[], rest, refresh, rows);
      FollowAllExtends(w, rest, refresh, rows);
      FollowingExtends(w, v, next, subjects[|subjects| - 1], refresh, rows);
    }
  }

  /** A fetch of record `id` that is no longer its newest, or whose record is not followed. */
  ghost predicate Overtaken(w: Watch, id: nat, gen: nat) {
    id < |w.all| && (gen < w.all[id].gen || !Current(w, id))
  }

  lemma OvertakenStaysSo(w: Watch, a: Act, id: nat, gen: nat)
    requires Inv(w) && Overtaken(w, id, gen)
    ensures Overtaken(Step(w, a), id, gen)
    ensures forall l :: l in Step(w, a).all[id].listings && l.gen == gen ==> l in w.all[id].listings
  {
    if Enabled(w, a) {
      match a
      case Sets(subjects, refresh, rows) =>
        FollowAllExtends(w, subjects, refresh, rows);
        if !Current(w, id) { FollowAllSkips(w, subjects, refresh, rows, id); }
      case _ =>
    }
  }

  lemma {:induction false} OvertakenForGood(w: Watch, acts: seq<Act>, id: nat, gen: nat)
    requires Inv(w) && Overtaken(w, id, gen)
    ensures Inv(Exec(w, acts)) && Overtaken(Exec(w, acts), id, gen)
    ensures forall l :: l in Exec(w, acts).all[id].listings && l.gen == gen ==> l in w.all[id].listings
  {
    if acts != [] {
      var v := Exec(w, acts[..|acts| - 1]);
      OvertakenForGood(w, acts[..|acts| - 1], id, gen);
      StepKeeps(v, acts[|acts| - 1]);
      OvertakenStaysSo(v, acts[|acts| - 1], id, gen);
    }
  }

  /** A fetch once overtaken, or of a subject let go, never contributes: whatever
      happens, every listing of it was made before, and what is handed over for
      the record is made of its listings alone. */
  lemma OvertakenAddsNothing(w: Watch, acts: seq<Act>, id: nat, gen: nat)
    requires Reachable(w) && Overtaken(w, id, gen)
    ensures var v := Exec(w, acts);
      && id < |v.all|
      && (forall l :: l in v.all[id].listings && l.gen == gen ==> l in w.all[id].listings)
      && Delivered(v.out, id) + v.all[id].queue == Rendered(v.all[id].listings)
  {
    ReachableInv(w);
    OvertakenForGood(w, acts, id, gen);
    assert HeldValid(Exec(w, acts), id);
  }

  // ---- A subject that is unwatched and watched again ----

  /** What following the subjects makes of an earlier record: one that no subject
      is followed through stays so, and is not touched. */
  lemma {:induction false} FollowAllSkips(w: Watch, subjects: seq<Subject>, refresh: bool, rows: Rows, id: nat)
    requires Inv(w) && id < |w.all| && !Current(w, id)
    ensures var (v, n) := FollowAll(w, map[], subjects, refresh, rows);
      && |w.all| <= |v.all| && v.all[id] == w.all[id] && v.out == w.out && v.watched == w.watched
      && forall s :: s in n ==> n[s] != id
    decreases |subjects|
  {
    if subjects != [] {
      var rest, s := subjects[..|subjects| - 1], subjects[|subjects| - 1];
      FollowAllSkips(w, rest, refresh, rows, id);
      var (v, n) := FollowAll(w, map[], rest, refresh, rows);
      assert s in w.watched ==> w.watched[s] != id;
    }
  }

  lemma RetiredStaysRetired(w: Watch, a: Act, id: nat)
    requires Inv(w) && id < |w.all| && !Current(w, id) && w.all[id].queue == []
    ensures var v := Step(w, a);
      && id < |v.all| && !Current(v, id) && v.all[id].queue == []
      && Delivered(v.out, id) == Delivered(w.out, id)
  {
    if Enabled(w, a) {
      match a
      case Sets(subjects, refresh, rows) =>
        FollowAllSkips(w, subjects, refresh, rows, id);
      case Delivers(other) =>
        DeliveredGrows(w.out, Sent(other, w.all[other].queue[0]), id);
      case _ =>
    }
  }

  lemma {:induction false} RetiredIsSilent(w: Watch, acts: seq<Act>, id: nat)
    requires Inv(w) && id < |w.all| && !Current(w, id) && w.all[id].queue == []
    ensures var v := Exec(w, acts);
      && Inv(v) && id < |v.all| && !Current(v, id) && v.all[id].queue == []
      && Delivered(v.out, id) == Delivered(w.out, id)
  {
    if acts != [] {
      var v := Exec(w, acts[..|acts| - 1]);
      RetiredIsSilent(w, acts[..|acts| - 1], id);
      StepKeeps(v, acts[|acts| - 1]);
      RetiredStaysRetired(v, acts[|acts| - 1], id);
    }
  }

  /** A record no longer followed can still put events on the stream, and so
      among those of a new record of its subject, exactly when a listing of it is
      still being handed over: the new record does not wait for the old one. */
  lemma RetiredSpeaksIff(w: Watch, id: nat)
    requires Reachable(w) && !w.closed && id < |w.all| && !Current(w, id)
    ensures (exists acts :: Delivered(Exec(w, acts).out, id) != Delivered(w.out, id)) <==> w.all[id].queue != []
  {
    ReachableInv(w);
    if w.all[id].queue == [] {
      forall acts ensures Delivered(Exec(w, acts).out, id) == Delivered(w.out, id) {
        RetiredIsSilent(w, acts, id);
      }
    } else {
      assert [Delivers(id)][..0] == [];
      assert Exec(w, [Delivers(id)]) == OnDeliver(w, id);
      DeliveredGrows(w.out, Sent(id, w.all[id].queue[0]), id);
    }
  }

  /** What the stream was handed for a subject, through whichever record. */
  function OfSubject(all: seq<Watched>, out: seq<Sent>, s: Subject): seq<RunEvent> {
    if out == [] then []
    else
      var last := out[|out| - 1];
      OfSubject(all, out[..|out| - 1], s)
      + (if last.id < |all| && all[last.id].subject == s then [last.event] else [])
  }

  lemma OfSubjectGrows(all: seq<Watched>, out: seq<Sent>, x: Sent, s: Subject)
    ensures OfSubject(all, out + [x], s)
         == OfSubject(all, out, s) + (if x.id < |all| && all[x.id].subject == s then [x.event] else [])
  {
    assert (out + [x])[..|out|] == out;
  }

  lemma {:induction false} OfSubjectStays(all: seq<Watched>, all': seq<Watched>, out: seq<Sent>, s: Subject)
    requires |all| <= |all'| && forall j :: 0 <= j < |all| ==> all'[j].subject == all[j].subject
    requires forall x :: x in out ==> x.id < |all|
    ensures OfSubject(all', out, s) == OfSubject(all, out, s)
  {
    if out != [] {
      assert out[|out| - 1] in out;
      OfSubjectStays(all, all', out[..|out| - 1], s);
    }
  }

  /** As long as `id` is the record its subject is followed through, no other
      record of it has anything to hand over, and since the `n`th event the stream
      was handed for the subject what it was handed for the record. */
  ghost predicate Alone(w: Watch, id: nat, n: nat) {
    && id < |w.all| && n <= |w.out|
    && (Current(w, id) ==>
          && (forall j :: 0 <= j < |w.all| && j != id && w.all[j].subject == w.all[id].subject ==> w.all[j].queue == [])
          && OfSubject(w.all, w.out[n..], w.all[id].subject) == Delivered(w.out, id))
  }

  lemma SetsKeepsAlone(w: Watch, subjects: seq<Subject>, refresh: bool, rows: Rows, id: nat, n: nat)
    requires Inv(w) && Alone(w, id, n)
    ensures Alone(OnSet(w, subjects, refresh, rows), id, n)
  {
    var v := OnSet(w, subjects, refresh, rows);
    FollowAllExtends(w, subjects, refresh, rows);
    if Current(w, id) {
      OfSubjectStays(w.all, v.all, w.out[n..], w.all[id].subject);
    } else {
      FollowAllSkips(w, subjects, refresh, rows, id);
    }
  }

  lemma DeliversKeepsAlone(w: Watch, id: nat, n: nat, j: nat)
    requires Inv(w) && Alone(w, id, n) && Enabled(w, Delivers(j))
    ensures Alone(OnDeliver(w, j), id, n)
  {
    var v, x := OnDeliver(w, j), Sent(j, w.all[j].queue[0]);
    if Current(w, id) {
      assert v.out[n..] == w.out[n..] + [x];
      OfSubjectStays(w.all, v.all, w.out[n..], w.all[id].subject);
      OfSubjectGrows(v.all, w.out[n..], x, w.all[id].subject);
      DeliveredGrows(w.out, x, id);
    }
  }

  lemma StepKeepsAlone(w: Watch, a: Act, id: nat, n: nat)
    requires Inv(w) && Alone(w, id, n)
    ensures Alone(Step(w, a), id, n)
  {
    if Enabled(w, a) {
      match a
      case Sets(subjects, refresh, rows) => SetsKeepsAlone(w, subjects, refresh, rows, id, n);
      case Delivers(j) => DeliversKeepsAlone(w, id, n, j);
      case _ =>
        if Current(w, id) {
          OfSubjectStays(w.all, Step(w, a).all, w.out[n..], w.all[id].subject);
        }
    }
  }

  lemma {:induction false} ExecKeepsAlone(w: Watch, acts: seq<Act>, id: nat, n: nat)
    requires Inv(w) && Alone(w, id, n)
    ensures Inv(Exec(w, acts)) && Alone(Exec(w, acts), id, n)
  {
    hide Alone, Inv;
    if acts != [] {
      ExecKeepsAlone(w, acts[..|acts| - 1], id, n);
      StepKeeps(Exec(w, acts[..|acts| - 1]), acts[|acts| - 1]);
      StepKeepsAlone(Exec(w, acts[..|acts| - 1]), acts[|acts| - 1], id, n);
    }
  }

  lemma NewlyAlone(w: Watch, subjects: seq<Subject>, refresh: bool, rows: Rows, s: Subject)
    requires Inv(w) && s in subjects && s !in w.watched
    requires forall j :: 0 <= j < |w.all| && w.all[j].subject == s ==> w.all[j].queue == []
    ensures var v := OnSet(w, subjects, refresh, rows);
      s in v.watched && v.watched[s] < |v.all| && v.all[v.watched[s]].subject == s && Alone(v, v.watched[s], |w.out|)
  {
    var v := OnSet(w, subjects, refresh, rows);
    FollowAllExtends(w, subjects, refresh, rows);
    SetKeeps(w, subjects, refresh, rows);
    FollowAllKeeps(w, subjects, refresh, rows);
    var id := v.watched[s];
    if id < |w.all| {
      assert !Current(w, id);
      FollowAllSkips(w, subjects, refresh, rows, id);
    }
    NotYetDelivered(v.out, id);
    assert v.out[|w.out|..] == [];
  }

  /** A subject let go and watched again: if nothing of it was still being handed
      over when it was watched again, then whenever nothing is any more, folding
      all the subject's events since over an empty page shows its last listing. */
  lemma WatchedAgainShowsTheLastListing(
    w: Watch, subjects: seq<Subject>, refresh: bool, rows: Rows, s: Subject, acts: seq<Act>)
    requires Reachable(w) && !w.closed && s in subjects && s !in w.watched
    requires forall j :: 0 <= j < |w.all| && w.all[j].subject == s ==> w.all[j].queue == []
    ensures var v := Step(w, Sets(subjects, refresh, rows)); var u := Exec(v, acts);
      s in v.watched && var id := v.watched[s];
      s in u.watched && u.watched[s] == id && id < |u.all| && u.all[id].queue == [] ==>
        && |w.out| <= |u.out|
        && Shows(Fold(map[], OfSubject(u.all, u.out[|w.out|..], s)), LastGroups(u.all[id].listings))
  {
    ReachableInv(w);
    var v := Step(w, Sets(subjects, refresh, rows));
    NewlyAlone(w, subjects, refresh, rows, s);
    StepKeeps(w, Sets(subjects, refresh, rows));
    var id, u := v.watched[s], Exec(v, acts);
    ExecKeepsAlone(v, acts, id, |w.out|);
    if s in u.watched && u.watched[s] == id && id < |u.all| && u.all[id].queue == [] {
      assert UpToDate(u, u.watched[s]);
      assert HeldValid(u, id);
      assert Delivered(u.out, id) + [] == Delivered(u.out, id);
      RenderedShows(u.all[id].listings);
    }
  }

  /** The watch once `s` is followed, listed, and let go before the listing is handed over. */
  function LetGo(s: Subject, g: Group): Watch {
    Watch(map[], [Watched(s, Missing, 1, [g.key], [RunEvent(Put(g), true)], [Listing(1, Listed([g]))])], {}, [], false)
  }

  lemma LetGoReachable(s: Subject, g: Group)
    ensures Reachable(LetGo(s, g))
  {
    var acts := [Sets([s], false, map[]), Answers(0, 1, Listed([g])), Sets([], false, map[])];
    var followed := Watch(map[s := 0], [Watched(s, Missing, 1, [], [], [])], {(0, 1)}, [], false);
    assert [s][..0] == [];
    assert FollowAll(OPENED, map[], [], false, map[]) == (OPENED, map[]);
    assert Step(OPENED, acts[0]) == followed;
    assert Body([], [g]) == [Put(g)] && Marked([Put(g)]) == [RunEvent(Put(g), true)] && Keys([g]) == [g.key];
    assert [] + [Listing(1, Listed([g]))] == [Listing(1, Listed([g]))];
    var listed := LetGo(s, g).(watched := map[s := 0]);
    assert Step(followed, acts[1]) == listed;
    assert FollowAll(listed, map[], [], false, map[]) == (listed, map[]);
    assert Step(listed, acts[2]) == LetGo(s, g);
    assert acts[..2][..1][..0] == [] && acts[..2][..1][0] == acts[0];
    assert Exec(OPENED, acts[..2][..1]) == followed;
    assert Exec(OPENED, acts[..2]) == listed;
    assert Exec(OPENED, acts) == LetGo(s, g);
  }

  /** The watch once `s` is watched again, the old listing still in hand. */
  function WatchedAgain(s: Subject, g: Group): Watch {
    Watch(map[s := 1], LetGo(s, g).all + [Watched(s, Missing, 1, [], [], [])], {(1, 1)}, [], false)
  }

  lemma LetGoWatchedAgain(s: Subject, g: Group)
    ensures Step(LetGo(s, g), Sets([s], false, map[])) == WatchedAgain(s, g)
  {
    var w := LetGo(s, g);
    assert [s][..0] == [];
    assert FollowAll(w, map[], [], false, map[]) == (w, map[]);
  }

  /** That condition is needed: watched again before the old listing is handed
      over, the subject is told of a group its new record has never listed. */
  lemma AnOldListingReachesTheNewPage(s: Subject, g: Group)
    ensures Reachable(LetGo(s, g)) && !Current(LetGo(s, g), 0)
    ensures var u := Exec(LetGo(s, g), [Sets([s], false, map[]), Delivers(0)]);
      && u.watched == map[s := 1] && |u.all| == 2 && u.all[1].queue == [] && u.all[1].listings == []
      && OfSubject(u.all, u.out, s) == [RunEvent(Put(g), true)]
  {
    hide OnSet, OnSnapshot, OnAnswer, Reachable;
    LetGoReachable(s, g);
    LetGoWatchedAgain(s, g);
    var acts := [Sets([s], false, map[]), Delivers(0)];
    var v := WatchedAgain(s, g);
    assert acts[..1][..0] == [] && acts[..1][0] == acts[0];
    assert Exec(LetGo(s, g), acts[..1]) == v;
    assert Exec(LetGo(s, g), acts) == OnDeliver(v, 0);
    assert [Sent(0, RunEvent(Put(g), true))][..0] == [];
    assert [] + [Sent(0, RunEvent(Put(g), true))] == [Sent(0, RunEvent(Put(g), true))];
  }

  // ---- Once the stream has closed ----

  lemma {:induction false} ClosedStays(w: Watch, acts: seq<Act>)
    requires w.closed
    ensures Exec(w, acts) == w
  {
    if acts != [] {
      ClosedStays(w, acts[..|acts| - 1]);
    }
  }

  /** Whatever comes, nothing more is asked about or handed over. */
  lemma NothingAfterClosing(w: Watch, acts: seq<Act>)
    ensures Exec(Step(w, Closes), acts).out == w.out && Exec(Step(w, Closes), acts).fetching == w.fetching
    ensures Exec(Step(w, Closes), acts).closed
  {
    ClosedStays(Step(w, Closes), acts);
  }
}
