/** The webhook debouncer: a burst of events for one key becomes one call of the latest fn. */
module Debounce {
  import opened Prelude

  // The call comes `quiet` after the newest event and at most `maxHold` after
  // the first.
  //
  // Times are integers on one clock. A timer or a context hook that has already
  // started cannot be stopped: its callback is then late, and takes the lock
  // some time after the entry it was armed for has moved on.

  datatype Config = Config(quiet: nat, maxHold: nat)

  /** What an Aggregator uses, in milliseconds. */
  const WEBHOOK := Config(2000, 5000)

  /** What an event would have run, by name. */
  type Fn = string

  datatype Entry = Entry(first: int, fn: Fn, gen: nat)

  datatype Table = Table(entries: map<string, Entry>, closed: bool)

  /** How long the timer an event arms waits. */
  function Wait(c: Config, first: int, now: int): int {
    var left := c.maxHold - (now - first);
    if left < c.quiet then (if left > 0 then left else 0) else c.quiet
  }

  /** The deadline an event arms: the end of its burst or the end of the hold,
      whichever comes first, and never in the past. */
  function Due(c: Config, first: int, now: int): (due: int)
    ensures due == Max(now, Min(now + c.quiet, first + c.maxHold))
  {
    now + Wait(c, first, now)
  }

  function Submitted(t: Table, now: int, key: string, fn: Fn): Table {
    var first := if key in t.entries then t.entries[key].first else now;
    var gen := if key in t.entries then t.entries[key].gen else 0;
    t.(entries := t.entries[key := Entry(first, fn, gen + 1)])
  }

  /** What a callback armed as the `gen`th of an entry tests before it acts. */
  predicate Takes(t: Table, key: string, gen: nat) {
    key in t.entries && t.entries[key].gen == gen
  }

  function Taken(t: Table, key: string): Table {
    t.(entries := t.entries - {key})
  }

  class Debouncer {
    const config: Config
    var entries: map<string, Entry>
    var closed: bool

    function View(): Table
      reads this
    {
      Table(entries, closed)
    }

    constructor (config: Config)
      ensures View() == Table(map[], false) && this.config == config
    {
      this.config := config;
      entries, closed := map[], false;
    }

    /** Submit: false, changing nothing, once closed or once the owner has ended.
        Otherwise a timer is to be armed for `wait`, as the entry's `gen`th. */
    method Submit(now: int, ownerEnded: bool, key: string, fn: Fn) returns (accepted: bool, wait: int, gen: nat)
      modifies this
      ensures accepted == (!old(closed) && !ownerEnded)
      ensures !accepted ==> View() == old(View())
      ensures accepted ==> View() == Submitted(old(View()), now, key, fn)
      ensures accepted ==> gen == entries[key].gen && wait == Wait(config, entries[key].first, now)
    {
      if closed || ownerEnded {
        return false, 0, 0;
      }
      var e := if key in entries then entries[key] else Entry(now, fn, 0);
      e := e.(gen := e.gen + 1, fn := fn);
      entries := entries[key := e];
      wait := config.quiet;
      var left := config.maxHold - (now - e.first);
      if left < wait {
        wait := if left > 0 then left else 0;
      }
      accepted, gen := true, e.gen;
    }

    /** fire, up to the call of the fn it answers, if it takes its entry. */
    method Fire(key: string, gen: nat) returns (taken: Option<Fn>)
      modifies this
      ensures View() == if Takes(old(View()), key, gen) then Taken(old(View()), key) else old(View())
      ensures taken == if Takes(old(View()), key, gen) then Some(old(entries)[key].fn) else None
    {
      if key !in entries || entries[key].gen != gen {
        return None;
      }
      taken := Some(entries[key].fn);
      entries := entries - {key};
    }

    method Drop(key: string, gen: nat)
      modifies this
      ensures View() == if Takes(old(View()), key, gen) then Taken(old(View()), key) else old(View())
    {
      if key in entries && entries[key].gen == gen {
        entries := entries - {key};
      }
    }

    method Close()
      modifies this
      ensures View() == Table(map[], true)
    {
      closed := true;
      while entries != map[]
        invariant closed
        decreases |entries|
      {
        var key :| key in entries;
        entries := entries - {key};
      }
    }
  }

  // ---- Every interleaving of events, late callbacks, cancellation and close ----

  /** One event folded into an entry. */
  datatype Sub = Sub(at: int, fn: Fn)

  /** A timer or context hook armed as the `gen`th of the entry numbered `id`. */
  datatype Timer = Timer(key: string, gen: nat, id: nat, at: int)
  datatype Hook = Hook(key: string, gen: nat, id: nat)

  datatype Firing = Firing(id: nat, fn: Fn, at: int, cause: Timer)

  /** `subs` numbers every entry ever made and lists its events, `keys` says what
      key each was made for, `ids` which entry each key holds. `armed` and `hooked`
      can still be stopped, `late` and `dropping` have started and run when they
      get the lock. `dropped` has the entries let go unfired: by a context's
      callback, or by none when the debouncer was closed. */
  datatype System = System(
    config: Config, now: int, ownerEnded: bool, table: Table,
    ids: map<string, nat>, keys: seq<string>, subs: seq<seq<Sub>>,
    armed: set<Timer>, late: set<Timer>, hooked: set<Hook>, dropping: set<Hook>,
    fired: seq<Firing>, dropped: map<nat, Option<Hook>>)

  datatype Event =
    | Submits(key: string, fn: Fn)
    | TimerStarts(t: Timer)
    | FireRuns(t: Timer)
    | CtxEnds(h: Hook)
    | DropRuns(h: Hook)
    | OwnerEnds
    | CloseRuns
    | Tick(to: int)

  function Start(c: Config, now: int): System {
    System(c, now, false, Table(map[], false), map[], [], [], {}, {}, {}, {}, [], map[])
  }

  /** stop and release: the timer or hook is gone, unless it has already started. */
  function Stopped(armed: set<Timer>, id: nat, gen: int): set<Timer> {
    set t | t in armed && !(t.id == id && t.gen == gen)
  }

  function Released(hooked: set<Hook>, id: nat, gen: int): set<Hook> {
    set h | h in hooked && !(h.id == id && h.gen == gen)
  }

  /** The number of the entry `key` holds, or of the one it would get. */
  function IdOf(s: System, key: string): nat {
    if key in s.ids then s.ids[key] else |s.subs|
  }

  function OnSubmits(s: System, key: string, fn: Fn): System {
    var id := IdOf(s, key);
    var sub := Sub(s.now, fn);
    var table := Submitted(s.table, s.now, key, fn);
    var e := table.entries[key];
    var timer := Timer(key, e.gen, id, Due(s.config, e.first, s.now));
    s.(table := table, ids := s.ids[key := id],
       keys := if id < |s.subs| then s.keys else s.keys + [key],
       subs := if id < |s.subs| then s.subs[id := s.subs[id] + [sub]] else s.subs + [[sub]],
       armed := Stopped(s.armed, id, e.gen - 1) + {timer},
       hooked := Released(s.hooked, id, e.gen - 1) + {Hook(key, e.gen, id)})
  }

  function OnFireRuns(s: System, t: Timer): System {
    if !Takes(s.table, t.key, t.gen) then s.(late := s.late - {t})
    else
      var id := IdOf(s, t.key);
      s.(late := s.late - {t}, table := Taken(s.table, t.key), ids := s.ids - {t.key},
         hooked := Released(s.hooked, id, t.gen),
         fired := s.fired + [Firing(id, s.table.entries[t.key].fn, s.now, t)])
  }

  function OnDropRuns(s: System, h: Hook): System {
    if !Takes(s.table, h.key, h.gen) then s.(dropping := s.dropping - {h})
    else
      var id := IdOf(s, h.key);
      s.(dropping := s.dropping - {h}, table := Taken(s.table, h.key), ids := s.ids - {h.key},
         armed := Stopped(s.armed, id, h.gen), dropped := s.dropped[id := Some(h)])
  }

  /** Close stops the timer and releases the hook of every entry it drops. */
  function OnCloseRuns(s: System): System {
    s.(table := Table(map[], true), ids := map[],
       armed := (set t | t in s.armed && !(t.key in s.ids && s.ids[t.key] == t.id && Takes(s.table, t.key, t.gen))),
       hooked := (set h | h in s.hooked && !(h.key in s.ids && s.ids[h.key] == h.id && Takes(s.table, h.key, h.gen))),
       dropped := s.dropped + map id | id in s.ids.Values :: None)
  }

  /** An event that cannot happen in `s` changes nothing. */
  function Step(s: System, e: Event): System {
    match e
    case Submits(key, fn) => if s.table.closed || s.ownerEnded then s else OnSubmits(s, key, fn)
    case TimerStarts(t) => if t in s.armed && t.at <= s.now then s.(armed := s.armed - {t}, late := s.late + {t}) else s
    case FireRuns(t) => if t in s.late then OnFireRuns(s, t) else s
    case CtxEnds(h) => if h in s.hooked then s.(hooked := s.hooked - {h}, dropping := s.dropping + {h}) else s
    case DropRuns(h) => if h in s.dropping then OnDropRuns(s, h) else s
    case OwnerEnds => s.(ownerEnded := true)
    case CloseRuns => if s.ownerEnded then OnCloseRuns(s) else s
    case Tick(to) => if s.now <= to then s.(now := to) else s
  }

  function Exec(s: System, events: seq<Event>): System {
    if events == [] then s
    else Step(Exec(s, events[..|events| - 1]), events[|events| - 1])
  }

  ghost predicate Reachable(s: System) {
    exists c, now, events :: s == Exec(Start(c, now), events)
  }

  // ---- What an entry is ----

  function Last(subs: seq<Sub>): Sub
    requires subs != []
  {
    subs[|subs| - 1]
  }

  /** When the entry numbered `id` is due, by its last event. */
  function DueOf(s: System, id: nat): int {
    if id < |s.subs| && s.subs[id] != [] then Due(s.config, s.subs[id][0].at, Last(s.subs[id]).at) else s.now
  }

  predicate Held(s: System, id: nat) {
    id < |s.keys| && s.keys[id] in s.ids && s.ids[s.keys[id]] == id
  }

  ghost predicate HasFired(s: System, id: nat) {
    exists i :: 0 <= i < |s.fired| && s.fired[i].id == id
  }

  /** The timer and the hook the last event of the entry under `key` armed. */
  function OwnTimer(s: System, key: string): Timer
    requires key in s.ids && key in s.table.entries
  {
    Timer(key, s.table.entries[key].gen, s.ids[key], DueOf(s, s.ids[key]))
  }

  function OwnHook(s: System, key: string): Hook
    requires key in s.ids && key in s.table.entries
  {
    Hook(key, s.table.entries[key].gen, s.ids[key])
  }

  ghost predicate SubsValid(s: System, id: nat)
    requires id < |s.subs|
  {
    && s.subs[id] != []
    && s.subs[id][0].at <= Last(s.subs[id]).at <= s.now
  }

  /** The entry under `key` is its own history: the first event's time, the last
      event's fn, and as many generations as events. */
  ghost predicate LiveValid(s: System, key: string)
    requires key in s.ids && key in s.table.entries
  {
    var id, e := s.ids[key], s.table.entries[key];
    && id < |s.subs| && SubsValid(s, id)
    && id < |s.keys| && s.keys[id] == key
    && e == Entry(s.subs[id][0].at, Last(s.subs[id]).fn, |s.subs[id]|)
  }

  /** The `gen`th event of an entry of `key`, which no entry of that key is older than. */
  ghost predicate ArmedValid(s: System, key: string, gen: nat, id: nat) {
    && id < |s.subs| && 1 <= gen <= |s.subs[id]|
    && id < |s.keys| && s.keys[id] == key
    && (key in s.ids ==> id <= s.ids[key])
  }

  /** What is armed for a held entry was armed by its last event. */
  ghost predicate Newest(s: System, gen: nat, id: nat) {
    Held(s, id) && id < |s.subs| ==> gen == |s.subs[id]|
  }

  ghost predicate TimerValid(s: System, t: Timer) {
    && ArmedValid(s, t.key, t.gen, t.id)
    && t.at == Due(s.config, s.subs[t.id][0].at, s.subs[t.id][t.gen - 1].at)
  }

  ghost predicate FiringValid(s: System, f: Firing) {
    && f.id < |s.subs| && SubsValid(s, f.id) && !Held(s, f.id)
    && f.fn == Last(s.subs[f.id]).fn
    && f.cause.id <= f.id < |s.keys| && s.keys[f.cause.id] == s.keys[f.id] == f.cause.key
    && f.cause.gen == |s.subs[f.id]|
    && (f.at < DueOf(s, f.id) ==> f.cause.id < f.id)
  }

  ghost predicate DroppedValid(s: System, id: nat)
    requires id in s.dropped
  {
    && id < |s.keys| && id < |s.subs| && !Held(s, id) && !HasFired(s, id)
    && match s.dropped[id]
       case None => s.table.closed
       case Some(h) => h.id <= id && h.key == s.keys[id] && h.gen == |s.subs[id]|
  }

  ghost predicate EntriesValid(s: System) {
    && |s.keys| == |s.subs|
    && s.ids.Keys == s.table.entries.Keys
    && (s.table.closed ==> s.ids == map[])
    && (forall key :: key in s.ids ==> LiveValid(s, key))
  }

  ghost predicate TimersValid(s: System) {
    && (forall t :: t in s.armed ==> TimerValid(s, t) && Newest(s, t.gen, t.id))
    && (forall t :: t in s.late ==> TimerValid(s, t) && t.at <= s.now)
  }

  ghost predicate HooksValid(s: System) {
    && (forall h :: h in s.hooked ==> ArmedValid(s, h.key, h.gen, h.id) && Newest(s, h.gen, h.id) && h !in s.dropping)
    && (forall h :: h in s.dropping ==> ArmedValid(s, h.key, h.gen, h.id))
  }

  /** Every entry has its timer and its hook, started or not. */
  ghost predicate Guarded(s: System)
    requires s.ids.Keys == s.table.entries.Keys
  {
    && (forall key :: key in s.ids ==> OwnTimer(s, key) in s.armed || OwnTimer(s, key) in s.late)
    && (forall key :: key in s.ids ==> OwnHook(s, key) in s.hooked || OwnHook(s, key) in s.dropping)
  }

  ghost predicate FiredValid(s: System) {
    && (forall i :: 0 <= i < |s.fired| ==> FiringValid(s, s.fired[i]))
    && (forall i, j :: 0 <= i < j < |s.fired| ==> s.fired[i].id != s.fired[j].id)
  }

  /** Every entry ever made is held, has fired or was dropped. */
  ghost predicate Accounted(s: System) {
    && (forall id: nat :: id < |s.keys| ==> Held(s, id) || HasFired(s, id) || id in s.dropped)
    && (forall id :: id in s.dropped ==> DroppedValid(s, id))
  }

  ghost predicate Inv(s: System) {
    EntriesValid(s) && TimersValid(s) && HooksValid(s) && Guarded(s) && FiredValid(s) && Accounted(s)
  }

  lemma StartInv(c: Config, now: int)
    ensures Inv(Start(c, now))
  {
  }

  // ---- A new event keeps the invariant ----

  lemma SubmitsKeepsEntries(s: System, key: string, fn: Fn)
    requires EntriesValid(s) && !s.table.closed
    ensures EntriesValid(OnSubmits(s, key, fn))
  {
    hide Stopped, Released, Due;
    var t := OnSubmits(s, key, fn);
    assert key in s.ids ==> LiveValid(s, key);
    forall k | k in t.ids ensures LiveValid(t, k) {
      if k != key { assert LiveValid(s, k); }
    }
  }

  lemma SubmitsKeepsTimers(s: System, key: string, fn: Fn)
    requires EntriesValid(s) && TimersValid(s) && !s.table.closed
    ensures TimersValid(OnSubmits(s, key, fn))
  {
    hide Released, Due;
    var t := OnSubmits(s, key, fn);
    assert key in s.ids ==> LiveValid(s, key);
    forall x | x in t.armed ensures TimerValid(t, x) && Newest(t, x.gen, x.id) {
      if x in s.armed { assert TimerValid(s, x) && Newest(s, x.gen, x.id); }
    }
    forall x | x in t.late ensures TimerValid(t, x) && x.at <= t.now {
      assert TimerValid(s, x);
    }
  }

  lemma SubmitsKeepsHooks(s: System, key: string, fn: Fn)
    requires EntriesValid(s) && HooksValid(s) && !s.table.closed
    ensures HooksValid(OnSubmits(s, key, fn))
  {
    hide Stopped, Due, SubsValid;
    var t := OnSubmits(s, key, fn);
    assert key in s.ids ==> LiveValid(s, key);
    forall h | h in t.hooked ensures ArmedValid(t, h.key, h.gen, h.id) && Newest(t, h.gen, h.id) && h !in t.dropping {
      if h in s.hooked { assert ArmedValid(s, h.key, h.gen, h.id) && Newest(s, h.gen, h.id); }
    }
    forall h | h in t.dropping ensures ArmedValid(t, h.key, h.gen, h.id) {
      assert ArmedValid(s, h.key, h.gen, h.id);
    }
  }

  lemma SubmitsKeepsGuarded(s: System, key: string, fn: Fn)
    requires EntriesValid(s) && Guarded(s) && !s.table.closed
    ensures OnSubmits(s, key, fn).ids.Keys == OnSubmits(s, key, fn).table.entries.Keys
    ensures Guarded(OnSubmits(s, key, fn))
  {
    hide Due;
    var t := OnSubmits(s, key, fn);
    assert key in s.ids ==> LiveValid(s, key);
    forall k | k in t.ids
      ensures OwnTimer(t, k) in t.armed || OwnTimer(t, k) in t.late
      ensures OwnHook(t, k) in t.hooked || OwnHook(t, k) in t.dropping
    {
      if k != key {
        assert LiveValid(s, k);
        assert OwnTimer(t, k) == OwnTimer(s, k) && OwnHook(t, k) == OwnHook(s, k);
      }
    }
  }

  lemma SubmitsKeepsFired(s: System, key: string, fn: Fn)
    requires EntriesValid(s) && FiredValid(s) && !s.table.closed
    ensures FiredValid(OnSubmits(s, key, fn))
  {
    hide Stopped, Released, Due;
    var t := OnSubmits(s, key, fn);
    assert key in s.ids ==> LiveValid(s, key);
    forall i | 0 <= i < |t.fired| ensures FiringValid(t, t.fired[i]) {
      assert FiringValid(s, s.fired[i]);
    }
  }

  lemma SubmitsKeepsAccounted(s: System, key: string, fn: Fn)
    requires EntriesValid(s) && FiredValid(s) && Accounted(s) && !s.table.closed
    ensures Accounted(OnSubmits(s, key, fn))
  {
    hide Stopped, Released, Due;
    var t := OnSubmits(s, key, fn);
    assert key in s.ids ==> LiveValid(s, key);
    forall id: nat | id < |t.keys| ensures Held(t, id) || HasFired(t, id) || id in t.dropped {
      assert id < |s.keys| ==> Held(s, id) || HasFired(s, id) || id in s.dropped;
    }
    forall id | id in t.dropped ensures DroppedValid(t, id) {
      assert DroppedValid(s, id) && (HasFired(t, id) ==> HasFired(s, id));
    }
  }

  // ---- Everything else only lets entries go and callbacks start ----

  ghost predicate Shrinks(s: System, u: System) {
    && u.config == s.config && u.subs == s.subs && u.keys == s.keys && s.now <= u.now
    && u.ids.Keys == u.table.entries.Keys
    && (u.table.closed ==> u.ids == map[])
    && (forall key :: key in u.ids ==>
          key in s.ids && key in s.table.entries && u.ids[key] == s.ids[key] && u.table.entries[key] == s.table.entries[key])
    && u.armed <= s.armed && u.hooked <= s.hooked
    && (forall t :: t in u.late ==> t in s.late || (t in s.armed && t.at <= u.now))
    && (forall h :: h in u.dropping ==> h in s.dropping || h in s.hooked)
    && (forall h :: h in u.hooked ==> h !in u.dropping)
  }

  lemma ShrinkingKeepsEntries(s: System, u: System)
    requires EntriesValid(s) && Shrinks(s, u)
    ensures EntriesValid(u)
  {
    forall k | k in u.ids ensures LiveValid(u, k) { assert LiveValid(s, k); }
  }

  lemma ShrinkingKeepsArmed(s: System, u: System)
    requires TimersValid(s) && HooksValid(s) && Shrinks(s, u)
    ensures TimersValid(u) && HooksValid(u)
  {
    forall t | t in u.armed ensures TimerValid(u, t) && Newest(u, t.gen, t.id) {
      assert TimerValid(s, t) && Newest(s, t.gen, t.id);
    }
    forall t | t in u.late ensures TimerValid(u, t) && t.at <= u.now { assert TimerValid(s, t); }
    forall h | h in u.hooked ensures ArmedValid(u, h.key, h.gen, h.id) && Newest(u, h.gen, h.id) {
      assert ArmedValid(s, h.key, h.gen, h.id) && Newest(s, h.gen, h.id);
    }
    forall h | h in u.dropping ensures ArmedValid(u, h.key, h.gen, h.id) { assert ArmedValid(s, h.key, h.gen, h.id); }
  }

  lemma ShrinkingKeepsFirings(s: System, u: System, f: Firing)
    requires Shrinks(s, u) && FiringValid(s, f)
    ensures FiringValid(u, f)
  {
  }

  /** A step that lets no entry go keeps everything. */
  lemma HoldingKeepsInv(s: System, u: System)
    requires Inv(s) && Shrinks(s, u) && Guarded(u)
    requires u.ids == s.ids && u.table == s.table && u.fired == s.fired && u.dropped == s.dropped
    ensures Inv(u)
  {
    ShrinkingKeepsEntries(s, u);
    ShrinkingKeepsArmed(s, u);
    forall i | 0 <= i < |u.fired| ensures FiringValid(u, u.fired[i]) {
      ShrinkingKeepsFirings(s, u, s.fired[i]);
    }
    forall id: nat | id < |u.keys| ensures Held(u, id) || HasFired(u, id) || id in u.dropped {
      assert Held(s, id) || HasFired(s, id) || id in s.dropped;
    }
    forall id | id in u.dropped ensures DroppedValid(u, id) { assert DroppedValid(s, id); }
  }

  // ---- A late callback keeps the invariant ----

  /** A callback that takes an entry fires its newest fn, and fires it before it
      is due only when it was armed for an earlier entry of the key. */
  lemma FiringIsValid(s: System, t: Timer)
    requires EntriesValid(s) && TimersValid(s) && t in s.late && Takes(s.table, t.key, t.gen)
    ensures var u := OnFireRuns(s, t); FiringValid(u, u.fired[|s.fired|])
  {
    assert LiveValid(s, t.key) && TimerValid(s, t);
  }

  lemma FireRunsShrinks(s: System, t: Timer)
    requires EntriesValid(s) && HooksValid(s)
    ensures Shrinks(s, OnFireRuns(s, t))
  {
  }

  lemma FireRunsKeepsGuarded(s: System, t: Timer)
    requires EntriesValid(s) && Guarded(s) && t in s.late && Shrinks(s, OnFireRuns(s, t))
    ensures Guarded(OnFireRuns(s, t))
  {
    hide Due;
    var u := OnFireRuns(s, t);
    assert t.key in s.ids ==> LiveValid(s, t.key);
    forall k | k in u.ids
      ensures OwnTimer(u, k) in u.armed || OwnTimer(u, k) in u.late
      ensures OwnHook(u, k) in u.hooked || OwnHook(u, k) in u.dropping
    {
      assert LiveValid(s, k);
      assert OwnTimer(u, k) == OwnTimer(s, k) && OwnHook(u, k) == OwnHook(s, k);
    }
  }

  lemma FireRunsKeepsFired(s: System, t: Timer)
    requires Inv(s) && t in s.late && Takes(s.table, t.key, t.gen) && Shrinks(s, OnFireRuns(s, t))
    ensures FiredValid(OnFireRuns(s, t))
  {
    hide Due, TimersValid, HooksValid, Guarded, Accounted, Released;
    var u := OnFireRuns(s, t);
    FiringIsValid(s, t);
    assert LiveValid(s, t.key) && Held(s, s.ids[t.key]);
    forall i | 0 <= i < |s.fired| ensures FiringValid(u, s.fired[i]) && s.fired[i].id != s.ids[t.key] {
      assert FiringValid(s, s.fired[i]);
      ShrinkingKeepsFirings(s, u, s.fired[i]);
    }
  }

  lemma FireRunsKeepsAll(s: System, t: Timer, id: nat)
    requires Inv(s) && t in s.late && Takes(s.table, t.key, t.gen) && id < |s.keys|
    ensures var u := OnFireRuns(s, t); Held(u, id) || HasFired(u, id) || id in u.dropped
  {
    hide Due, TimersValid, HooksValid, FiredValid, DroppedValid, Guarded;
    var u := OnFireRuns(s, t);
    assert LiveValid(s, t.key);
    assert u.fired[|s.fired|].id == s.ids[t.key];
    if HasFired(s, id) {
      var i :| 0 <= i < |s.fired| && s.fired[i].id == id;
      assert u.fired[i].id == id;
    }
  }

  lemma FireRunsKeepsAccounted(s: System, t: Timer)
    requires Inv(s) && t in s.late && Takes(s.table, t.key, t.gen)
    ensures Accounted(OnFireRuns(s, t))
  {
    hide Due, TimerValid, FiringValid, ArmedValid;
    var u := OnFireRuns(s, t);
    var taken := s.ids[t.key];
    assert LiveValid(s, t.key) && Held(s, taken);
    assert u.fired[|s.fired|].id == taken;
    forall id: nat | id < |u.keys| ensures Held(u, id) || HasFired(u, id) || id in u.dropped {
      FireRunsKeepsAll(s, t, id);
    }
    forall id | id in u.dropped ensures DroppedValid(u, id) {
      assert DroppedValid(s, id);
      forall i | 0 <= i < |u.fired| ensures u.fired[i].id != id {
        assert i == |s.fired| || u.fired[i] == s.fired[i];
      }
    }
  }

  lemma FireRunsKeepsInv(s: System, t: Timer)
    requires Inv(s) && t in s.late
    ensures Inv(OnFireRuns(s, t))
  {
    hide OnFireRuns, Shrinks, Guarded, Accounted, FiredValid;
    FireRunsShrinks(s, t);
    FireRunsKeepsGuarded(s, t);
    if Takes(s.table, t.key, t.gen) {
      ShrinkingKeepsEntries(s, OnFireRuns(s, t));
      ShrinkingKeepsArmed(s, OnFireRuns(s, t));
      FireRunsKeepsFired(s, t);
      FireRunsKeepsAccounted(s, t);
    } else {
      UntakenFireKeeps(s, t);
    }
  }

  lemma UntakenFireKeeps(s: System, t: Timer)
    requires Inv(s) && t in s.late && !Takes(s.table, t.key, t.gen)
    requires Shrinks(s, OnFireRuns(s, t)) && Guarded(OnFireRuns(s, t))
    ensures Inv(OnFireRuns(s, t))
  {
    HoldingKeepsInv(s, OnFireRuns(s, t));
  }

  lemma DropRunsShrinks(s: System, h: Hook)
    requires EntriesValid(s) && HooksValid(s)
    ensures Shrinks(s, OnDropRuns(s, h))
  {
  }

  lemma DropRunsKeepsGuarded(s: System, h: Hook)
    requires EntriesValid(s) && Guarded(s) && Shrinks(s, OnDropRuns(s, h))
    ensures Guarded(OnDropRuns(s, h))
  {
    hide Due;
    var u := OnDropRuns(s, h);
    assert h.key in s.ids ==> LiveValid(s, h.key);
    forall k | k in u.ids
      ensures OwnTimer(u, k) in u.armed || OwnTimer(u, k) in u.late
      ensures OwnHook(u, k) in u.hooked || OwnHook(u, k) in u.dropping
    {
      assert LiveValid(s, k);
      assert OwnTimer(u, k) == OwnTimer(s, k) && OwnHook(u, k) == OwnHook(s, k);
    }
  }

  /** Letting entries go unfired keeps what is known of every other entry. */
  lemma LettingGoKeeps(s: System, u: System)
    requires Inv(s) && Shrinks(s, u) && u.fired == s.fired
    requires forall id: nat :: id < |s.keys| && Held(s, id) ==> Held(u, id) || id in u.dropped
    requires forall id :: id in s.dropped ==> id in u.dropped
    requires forall id :: id in u.dropped ==> DroppedValid(u, id)
    requires Guarded(u)
    ensures Inv(u)
  {
    hide Due, TimerValid, ArmedValid, DroppedValid, Guarded;
    ShrinkingKeepsEntries(s, u);
    ShrinkingKeepsArmed(s, u);
    forall i | 0 <= i < |u.fired| ensures FiringValid(u, u.fired[i]) {
      ShrinkingKeepsFirings(s, u, s.fired[i]);
    }
    forall id: nat | id < |u.keys| ensures Held(u, id) || HasFired(u, id) || id in u.dropped {
      assert Held(s, id) || HasFired(s, id) || id in s.dropped;
    }
  }

  lemma HeldHasNotFired(s: System, id: nat)
    requires FiredValid(s) && Held(s, id)
    ensures !HasFired(s, id)
  {
    forall i | 0 <= i < |s.fired| ensures s.fired[i].id != id { assert FiringValid(s, s.fired[i]); }
  }

  lemma DropRunsDrops(s: System, h: Hook, id: nat)
    requires Inv(s) && h in s.dropping && Takes(s.table, h.key, h.gen) && id in OnDropRuns(s, h).dropped
    ensures DroppedValid(OnDropRuns(s, h), id)
  {
    hide Due, TimerValid;
    assert LiveValid(s, h.key) && ArmedValid(s, h.key, h.gen, h.id);
    if id == s.ids[h.key] {
      HeldHasNotFired(s, id);
    } else {
      assert DroppedValid(s, id);
    }
  }

  lemma DropRunsKeepsInv(s: System, h: Hook)
    requires Inv(s) && h in s.dropping
    ensures Inv(OnDropRuns(s, h))
  {
    hide EntriesValid, TimersValid, HooksValid, Guarded, FiredValid, Accounted, Shrinks, DroppedValid;
    var u := OnDropRuns(s, h);
    DropRunsShrinks(s, h);
    DropRunsKeepsGuarded(s, h);
    if Takes(s.table, h.key, h.gen) {
      forall id | id in u.dropped ensures DroppedValid(u, id) { DropRunsDrops(s, h, id); }
      LettingGoKeeps(s, u);
    } else {
      HoldingKeepsInv(s, u);
    }
  }

  lemma CloseRunsDrops(s: System, id: nat)
    requires Inv(s) && id in OnCloseRuns(s).dropped
    ensures DroppedValid(OnCloseRuns(s), id)
  {
    hide Due, TimerValid;
    if id in s.ids.Values {
      var key :| key in s.ids && s.ids[key] == id;
      assert LiveValid(s, key);
      HeldHasNotFired(s, id);
    } else {
      assert DroppedValid(s, id);
    }
  }

  lemma CloseRunsKeepsInv(s: System)
    requires Inv(s)
    ensures Inv(OnCloseRuns(s))
  {
    var u := OnCloseRuns(s);
    forall id: nat | id < |s.keys| && Held(s, id) ensures id in u.dropped { assert s.ids[s.keys[id]] in s.ids.Values; }
    forall id | id in u.dropped ensures DroppedValid(u, id) { CloseRunsDrops(s, id); }
    LettingGoKeeps(s, u);
  }

  /** A timer or a context's callback starts, or time passes. */
  predicate Starts(e: Event) {
    e.TimerStarts? || e.CtxEnds? || e.OwnerEnds? || e.Tick?
  }

  lemma StartsShrink(s: System, e: Event)
    requires EntriesValid(s) && HooksValid(s) && Starts(e)
    ensures Shrinks(s, Step(s, e))
    ensures Step(s, e).ids == s.ids && Step(s, e).table == s.table
    ensures Step(s, e).fired == s.fired && Step(s, e).dropped == s.dropped
  {
    hide OnSubmits, OnFireRuns, OnDropRuns, OnCloseRuns, LiveValid, ArmedValid;
  }

  lemma StartsKeepGuarded(s: System, e: Event)
    requires EntriesValid(s) && Guarded(s) && Starts(e)
    requires Step(s, e).ids == s.ids && Step(s, e).table == s.table && Step(s, e).subs == s.subs && Step(s, e).config == s.config
    ensures Guarded(Step(s, e))
  {
    hide Due, OnSubmits, OnFireRuns, OnDropRuns, OnCloseRuns;
    var u := Step(s, e);
    forall k | k in u.ids
      ensures OwnTimer(u, k) in u.armed || OwnTimer(u, k) in u.late
      ensures OwnHook(u, k) in u.hooked || OwnHook(u, k) in u.dropping
    {
      assert LiveValid(s, k);
      assert OwnTimer(u, k) == OwnTimer(s, k) && OwnHook(u, k) == OwnHook(s, k);
    }
  }

  lemma StartsKeepInv(s: System, e: Event)
    requires Inv(s) && Starts(e)
    ensures Inv(Step(s, e))
  {
    hide Step, EntriesValid, TimersValid, HooksValid, Guarded, FiredValid, Accounted;
    StartsShrink(s, e);
    StartsKeepGuarded(s, e);
    HoldingKeepsInv(s, Step(s, e));
  }

  lemma StepKeepsInv(s: System, e: Event)
    requires Inv(s)
    ensures Inv(Step(s, e))
  {
    hide EntriesValid, TimersValid, HooksValid, Guarded, FiredValid, Accounted;
    match e
    case Submits(key, fn) =>
      if !s.table.closed && !s.ownerEnded { SubmitsKeepsInv(s, key, fn); }
    case FireRuns(t) =>
      if t in s.late { FireRunsKeepsInv(s, t); }
    case DropRuns(h) =>
      if h in s.dropping { DropRunsKeepsInv(s, h); }
    case CloseRuns =>
      if s.ownerEnded { CloseRunsKeepsInv(s); }
    case _ =>
      StartsKeepInv(s, e);
  }

  lemma SubmitsKeepsInv(s: System, key: string, fn: Fn)
    requires Inv(s) && !s.table.closed
    ensures Inv(OnSubmits(s, key, fn))
  {
    hide OnSubmits, EntriesValid, TimersValid, HooksValid, Guarded, FiredValid, Accounted;
    SubmitsKeepsEntries(s, key, fn);
    SubmitsKeepsTimers(s, key, fn);
    SubmitsKeepsHooks(s, key, fn);
    SubmitsKeepsGuarded(s, key, fn);
    SubmitsKeepsFired(s, key, fn);
    SubmitsKeepsAccounted(s, key, fn);
  }

  lemma {:induction false} ExecKeepsInv(s: System, events: seq<Event>)
    requires Inv(s)
    ensures Inv(Exec(s, events))
  {
    if events != [] {
      ExecKeepsInv(s, events[..|events| - 1]);
      StepKeepsInv(Exec(s, events[..|events| - 1]), events[|events| - 1]);
    }
  }

  lemma ReachableInv(s: System)
    requires Reachable(s)
    ensures Inv(s)
  {
    var c, now, events :| s == Exec(Start(c, now), events);
    ExecKeepsInv(Start(c, now), events);
  }

  // ---- What every run keeps ----

  /** An entry's fn runs at most once, it is the newest fn submitted to the
      entry, and nothing more is submitted to an entry that has fired. */
  lemma FiresTheNewestOnce(s: System, i: nat)
    requires Reachable(s) && i < |s.fired|
    ensures s.fired[i].id < |s.subs| && s.subs[s.fired[i].id] != []
    ensures s.fired[i].fn == Last(s.subs[s.fired[i].id]).fn
    ensures forall j :: 0 <= j < |s.fired| && j != i ==> s.fired[j].id != s.fired[i].id
    ensures forall key :: key in s.ids ==> s.ids[key] != s.fired[i].id
  {
    ReachableInv(s);
    assert FiringValid(s, s.fired[i]);
    forall key | key in s.ids ensures s.ids[key] != s.fired[i].id { assert LiveValid(s, key); }
  }

  /** Every entry ever made is exactly one of held, fired and dropped. */
  lemma EveryEntryEndsOnce(s: System, id: nat)
    requires Reachable(s) && id < |s.subs|
    ensures if Held(s, id) then !HasFired(s, id) && id !in s.dropped else HasFired(s, id) <==> id !in s.dropped
  {
    ReachableInv(s);
    assert Held(s, id) || HasFired(s, id) || id in s.dropped;
    assert id in s.dropped ==> DroppedValid(s, id);
    if Held(s, id) { HeldHasNotFired(s, id); }
  }

  /** Once closed, a debouncer holds nothing, accepts nothing and fires nothing. */
  lemma NothingAfterClose(s: System, e: Event)
    requires Reachable(s)
    ensures s.table.closed ==> s.table.entries == map[] && Step(s, e).table == s.table && Step(s, e).fired == s.fired
  {
    ReachableInv(s);
    assert s.table.closed ==> s.table.entries.Keys == {};
  }

  lemma TwoSteps(s: System, a: Event, b: Event)
    ensures Exec(s, [a, b]) == Step(Step(s, a), b)
  {
    assert [a, b][..1] == [a] && [a][..0] == [];
    assert Exec(s, [a]) == Step(Exec(s, []), a);
  }

  /** Once its owner is done the debouncer can close, which drops every burst still held, unfired. */
  lemma ClosingDropsAll(s: System)
    requires Reachable(s)
    ensures var u := Exec(s, [OwnerEnds, CloseRuns]);
      && u.table.closed && u.ids == map[] && u.fired == s.fired
      && forall id: nat | Held(s, id) :: id in u.dropped && u.dropped[id].None?
  {
    hide Due, OnSubmits, OnFireRuns, OnDropRuns, Inv;
    TwoSteps(s, OwnerEnds, CloseRuns);
    forall id: nat | Held(s, id) ensures id in s.ids.Values { assert s.ids[s.keys[id]] == id; }
  }

  /** Whatever came before, a held entry that is due has a timer, and that timer
      fires the newest fn submitted to it. */
  lemma FiresWhenDue(s: System, key: string)
    requires Reachable(s) && key in s.ids && DueOf(s, s.ids[key]) <= s.now
    ensures var id := s.ids[key];
      && key in s.table.entries && id < |s.subs| && s.subs[id] != []
      && var t := OwnTimer(s, key);
      && var u := Exec(s, [TimerStarts(t), FireRuns(t)]);
      && key !in u.ids && u.fired == s.fired + [Firing(id, Last(s.subs[id]).fn, s.now, t)]
  {
    hide Due, HooksValid, FiredValid, Accounted, Released, OnSubmits, OnDropRuns, OnCloseRuns;
    ReachableInv(s);
    assert LiveValid(s, key);
    var t := OwnTimer(s, key);
    TwoSteps(s, TimerStarts(t), FireRuns(t));
  }

  /** No other timer or hook of a held entry is armed: each event stopped the one before it. */
  lemma OnlyTheNewestIsArmed(s: System, key: string)
    requires Reachable(s) && key in s.ids
    ensures key in s.table.entries
    ensures forall t :: t in s.armed && t.id == s.ids[key] ==> t == OwnTimer(s, key)
    ensures forall h :: h in s.hooked && h.id == s.ids[key] ==> h == OwnHook(s, key)
  {
    hide Due, FiredValid, Accounted;
    ReachableInv(s);
    assert LiveValid(s, key);
    forall t | t in s.armed && t.id == s.ids[key] ensures t == OwnTimer(s, key) {
      assert TimerValid(s, t) && Newest(s, t.gen, t.id);
    }
    forall h | h in s.hooked && h.id == s.ids[key] ensures h == OwnHook(s, key) {
      assert ArmedValid(s, h.key, h.gen, h.id) && Newest(s, h.gen, h.id);
    }
  }

  /** And ending the context of its newest event drops it, unfired. */
  lemma CancellingDrops(s: System, key: string)
    requires Reachable(s) && key in s.ids
    ensures key in s.table.entries
      && var h := OwnHook(s, key);
      && var u := Exec(s, [CtxEnds(h), DropRuns(h)]);
      && key !in u.ids && u.fired == s.fired && u.dropped == s.dropped[s.ids[key] := Some(h)]
  {
    hide Due, TimersValid, FiredValid, Accounted, Stopped, OnSubmits, OnFireRuns, OnCloseRuns;
    ReachableInv(s);
    assert LiveValid(s, key);
    var h := OwnHook(s, key);
    TwoSteps(s, CtxEnds(h), DropRuns(h));
  }

  // ---- With timers on time, no burst outlasts the hold ----

  /** Timers are on time: none is passed before it starts, and no callback is
      still waiting for the lock when time passes. */
  ghost predicate Punctual(s: System, e: Event) {
    e.Tick? && s.now < e.to ==> s.late == {} && forall t :: t in s.armed ==> e.to <= t.at
  }

  ghost predicate OnTime(s: System, events: seq<Event>) {
    events == [] ||
    var before := events[..|events| - 1];
    OnTime(s, before) && Punctual(Exec(s, before), events[|events| - 1])
  }

  ghost predicate EndOfHold(s: System, id: nat, at: int) {
    id < |s.subs| && s.subs[id] != [] && at <= s.subs[id][0].at + s.config.maxHold
  }

  ghost predicate DueWithin(s: System, id: nat) {
    s.now <= DueOf(s, id) && EndOfHold(s, id, DueOf(s, id))
  }

  ghost predicate WithinHold(s: System) {
    && (forall key :: key in s.ids ==> DueWithin(s, s.ids[key]))
    && (forall i :: 0 <= i < |s.fired| ==> EndOfHold(s, s.fired[i].id, s.fired[i].at))
  }

  lemma SubmitsWithinHold(s: System, key: string, fn: Fn)
    requires EntriesValid(s) && FiredValid(s) && WithinHold(s) && !s.table.closed
    ensures WithinHold(OnSubmits(s, key, fn))
  {
    hide Stopped, Released;
    var u := OnSubmits(s, key, fn);
    assert key in s.ids ==> LiveValid(s, key);
    forall k | k in u.ids ensures DueWithin(u, u.ids[k]) {
      if k in s.ids { assert LiveValid(s, k) && DueWithin(s, s.ids[k]); }
    }
    forall i | 0 <= i < |u.fired| ensures EndOfHold(u, u.fired[i].id, u.fired[i].at) {
      assert FiringValid(s, s.fired[i]);
    }
  }

  lemma FireRunsWithinHold(s: System, t: Timer)
    requires EntriesValid(s) && WithinHold(s)
    ensures WithinHold(OnFireRuns(s, t))
  {
    hide Due;
    if Takes(s.table, t.key, t.gen) {
      var u := OnFireRuns(s, t);
      assert DueWithin(s, s.ids[t.key]);
      forall k | k in u.ids ensures DueWithin(u, u.ids[k]) { assert DueWithin(s, s.ids[k]); }
      forall i | 0 <= i < |u.fired| ensures EndOfHold(u, u.fired[i].id, u.fired[i].at) {
        if i < |s.fired| { assert EndOfHold(s, s.fired[i].id, s.fired[i].at); }
      }
    }
  }

  /** On time, no entry's own timer is passed. */
  lemma TickWithinDue(s: System, to: int, key: string)
    requires EntriesValid(s) && Guarded(s) && Punctual(s, Tick(to)) && key in s.ids && s.now <= DueOf(s, s.ids[key])
    ensures s.now <= to ==> to <= DueOf(s, s.ids[key])
  {
    hide Due, LiveValid;
    assert OwnTimer(s, key) in s.armed || OwnTimer(s, key) in s.late;
  }

  lemma ShrinkingWithinHold(s: System, u: System)
    requires WithinHold(s) && Shrinks(s, u) && u.fired == s.fired
    requires forall key :: key in u.ids ==> u.now <= DueOf(s, u.ids[key])
    ensures WithinHold(u)
  {
    hide Due;
    forall key | key in u.ids ensures DueWithin(u, u.ids[key]) {
      assert DueWithin(s, s.ids[key]);
    }
    forall i | 0 <= i < |u.fired| ensures EndOfHold(u, u.fired[i].id, u.fired[i].at) {
      assert EndOfHold(s, s.fired[i].id, s.fired[i].at);
    }
  }

  lemma StepWithinHold(s: System, e: Event)
    requires Inv(s) && WithinHold(s) && Punctual(s, e)
    ensures WithinHold(Step(s, e))
  {
    hide Due, OnSubmits, OnFireRuns, OnDropRuns, OnCloseRuns, EntriesValid, TimersValid, HooksValid, Guarded, FiredValid, Accounted;
    match e
    case Submits(key, fn) =>
      if !s.table.closed && !s.ownerEnded { SubmitsWithinHold(s, key, fn); }
    case FireRuns(t) =>
      FireRunsWithinHold(s, t);
    case DropRuns(h) =>
      DropRunsWithinHold(s, h);
    case CloseRuns =>
      CloseRunsWithinHold(s);
    case Tick(to) =>
      StartsShrink(s, e);
      forall key | key in s.ids ensures Step(s, e).now <= DueOf(s, s.ids[key]) {
        assert DueWithin(s, s.ids[key]);
        TickWithinDue(s, to, key);
      }
      ShrinkingWithinHold(s, Step(s, e));
    case _ =>
      StartsShrink(s, e);
      forall key | key in s.ids ensures s.now <= DueOf(s, s.ids[key]) { assert DueWithin(s, s.ids[key]); }
      ShrinkingWithinHold(s, Step(s, e));
  }

  lemma DropRunsWithinHold(s: System, h: Hook)
    requires EntriesValid(s) && HooksValid(s) && WithinHold(s)
    ensures WithinHold(OnDropRuns(s, h))
  {
    hide Due;
    DropRunsShrinks(s, h);
    forall key | key in OnDropRuns(s, h).ids ensures s.now <= DueOf(s, s.ids[key]) { assert DueWithin(s, s.ids[key]); }
    ShrinkingWithinHold(s, OnDropRuns(s, h));
  }

  lemma CloseRunsWithinHold(s: System)
    requires WithinHold(s)
    ensures WithinHold(OnCloseRuns(s))
  {
    hide Due;
    var u := OnCloseRuns(s);
    forall i | 0 <= i < |u.fired| ensures EndOfHold(u, u.fired[i].id, u.fired[i].at) {
      assert EndOfHold(s, s.fired[i].id, s.fired[i].at);
    }
  }

  lemma {:induction false} ExecWithinHold(c: Config, now: int, events: seq<Event>)
    requires OnTime(Start(c, now), events)
    ensures WithinHold(Exec(Start(c, now), events))
  {
    if events != [] {
      ExecWithinHold(c, now, events[..|events| - 1]);
      StartInv(c, now);
      ExecKeepsInv(Start(c, now), events[..|events| - 1]);
      StepWithinHold(Exec(Start(c, now), events[..|events| - 1]), events[|events| - 1]);
    }
  }

  lemma HeldWithinHold(s: System, id: nat)
    requires WithinHold(s) && Held(s, id)
    ensures EndOfHold(s, id, s.now)
  {
    assert DueWithin(s, s.ids[s.keys[id]]);
  }

  /** With timers on time, every burst whose first event is longer ago than
      maxHold has fired once, within maxHold, with its newest fn, or was dropped:
      by close, or by the callback of a context that had ended. */
  lemma OverByTheEndOfTheHold(c: Config, now: int, events: seq<Event>, id: nat)
    requires OnTime(Start(c, now), events)
    requires var s := Exec(Start(c, now), events);
      id < |s.subs| && s.subs[id] != [] && s.subs[id][0].at + c.maxHold < s.now
    ensures var s := Exec(Start(c, now), events);
      id !in s.dropped ==>
        exists i :: 0 <= i < |s.fired| && s.fired[i].id == id
          && s.fired[i].at <= s.subs[id][0].at + c.maxHold && s.fired[i].fn == Last(s.subs[id]).fn
  {
    var s := Exec(Start(c, now), events);
    StartInv(c, now);
    ExecKeepsInv(Start(c, now), events);
    ExecWithinHold(c, now, events);
    ConfigStays(Start(c, now), events);
    assert Held(s, id) || HasFired(s, id) || id in s.dropped;
    if Held(s, id) { HeldWithinHold(s, id); }
    if HasFired(s, id) {
      var i :| 0 <= i < |s.fired| && s.fired[i].id == id;
      assert FiringValid(s, s.fired[i]) && EndOfHold(s, s.fired[i].id, s.fired[i].at);
    }
  }

  lemma {:induction false} ConfigStays(s: System, events: seq<Event>)
    ensures Exec(s, events).config == s.config
  {
    if events != [] {
      ConfigStays(s, events[..|events| - 1]);
    }
  }

  // ---- Whose entry a late callback takes ----

  /** A late timer's callback takes the entry its key holds exactly when that has
      had as many events as the timer's own entry had when it was armed. It fires
      the entry before it is due exactly when, besides, it was armed for an
      earlier entry of the key and the due time is still to come. */
  lemma FiresEarlyIff(s: System, t: Timer)
    requires Reachable(s) && t in s.late && t.key in s.ids
    ensures var id := s.ids[t.key];
      && id < |s.subs|
      && var u := Step(s, FireRuns(t));
      && (t.key !in u.ids <==> t.gen == |s.subs[id]|)
      && (u.fired != s.fired <==> t.gen == |s.subs[id]|)
      && (u.fired != s.fired && s.now < DueOf(s, id) <==> t.gen == |s.subs[id]| && t.id < id && s.now < DueOf(s, id))
  {
    hide HooksValid, FiredValid, Accounted, Guarded, Released;
    ReachableInv(s);
    assert LiveValid(s, t.key) && TimerValid(s, t);
    hide Due, Inv, EntriesValid, TimersValid;
    assert t.gen == |s.subs[s.ids[t.key]]| && t.id == s.ids[t.key] ==> t.at == DueOf(s, t.id) <= s.now;
  }

  /** Over any run: what fired early was fired by an earlier entry's callback. */
  lemma EarlyOnlyByAnEarlierEntry(s: System, i: nat)
    requires Reachable(s) && i < |s.fired| && s.fired[i].at < DueOf(s, s.fired[i].id)
    ensures var f := s.fired[i];
      && f.cause.id < f.id < |s.keys| && s.keys[f.cause.id] == s.keys[f.id]
      && f.id < |s.subs| && f.cause.gen == |s.subs[f.id]|
  {
    ReachableInv(s);
    assert FiringValid(s, s.fired[i]);
  }

  /** The context of the newest event of the entry under `key` has not ended. */
  predicate ContextLive(s: System, key: string)
    requires key in s.ids && key in s.table.entries
  {
    OwnHook(s, key) in s.hooked
  }

  /** The callback of a context that has ended drops the entry its key holds by
      the same test. It drops one whose own context is live exactly when, besides,
      it was hooked for an earlier entry of the key. */
  lemma DropsALiveOneIff(s: System, h: Hook)
    requires Reachable(s) && h in s.dropping && h.key in s.ids
    ensures var id := s.ids[h.key];
      && id < |s.subs| && h.key in s.table.entries
      && var u := Step(s, DropRuns(h));
      && (h.key !in u.ids <==> h.gen == |s.subs[id]|)
      && (h.key !in u.ids && ContextLive(s, h.key) <==> h.gen == |s.subs[id]| && h.id < id && ContextLive(s, h.key))
  {
    hide Due, TimersValid, FiredValid, Accounted, Stopped;
    ReachableInv(s);
    assert LiveValid(s, h.key) && ArmedValid(s, h.key, h.gen, h.id);
  }

  /** `n` events for `key`, one after the other. */
  function Burst(key: string, fn: Fn, n: nat): seq<Event> {
    if n == 0 then [] else Burst(key, fn, n - 1) + [Submits(key, fn)]
  }

  /** `u` is `s` after `n` more events for `key`, all at the same time. */
  ghost predicate AfterBurst(s: System, u: System, key: string, n: nat) {
    && u.config == s.config && u.now == s.now && u.fired == s.fired
    && u.late == s.late && u.dropping == s.dropping && u.dropped == s.dropped
    && u.table.closed == s.table.closed && u.ownerEnded == s.ownerEnded
    && (if n == 0 then u == s
        else
          && |u.subs| == |s.subs| + 1 && key in u.ids && u.ids[key] == |s.subs|
          && key in u.table.entries && u.table.entries[key].gen == n && Hook(key, n, |s.subs|) in u.hooked
          && |u.subs[|s.subs|]| == n && u.subs[|s.subs|][0].at == Last(u.subs[|s.subs|]).at == s.now)
  }

  lemma OneMoreEvent(s: System, u: System, key: string, fn: Fn, n: nat)
    requires EntriesValid(s) && AfterBurst(s, u, key, n) && key !in s.ids
    ensures AfterBurst(s, OnSubmits(u, key, fn), key, n + 1)
  {
  }

  lemma {:induction false} BurstReaches(s: System, key: string, fn: Fn, n: nat)
    requires Inv(s) && !s.table.closed && !s.ownerEnded && key !in s.ids
    ensures AfterBurst(s, Exec(s, Burst(key, fn, n)), key, n)
  {
    if n > 0 {
      var before := Burst(key, fn, n - 1);
      assert Burst(key, fn, n)[..|before|] == before;
      BurstReaches(s, key, fn, n - 1);
      OneMoreEvent(s, Exec(s, before), key, fn, n - 1);
    }
  }

  /** Both happen: generations restart with each entry, so a timer callback that
      started for an entry since gone takes the next entry of its key once that
      has had as many events, and fires it before its quiet period. */
  lemma StaleCallbackFiresEarly(s: System, t: Timer, fn: Fn)
    requires Reachable(s) && !s.table.closed && !s.ownerEnded
    requires t in s.late && t.key !in s.ids
    requires s.config.quiet > 0 && s.config.maxHold > 0
    ensures var u := Exec(s, Burst(t.key, fn, t.gen) + [FireRuns(t)]);
      && |u.fired| == |s.fired| + 1
      && u.fired[|s.fired|].at < DueOf(u, u.fired[|s.fired|].id)
  {
    ReachableInv(s);
    assert TimerValid(s, t);
    var burst := Burst(t.key, fn, t.gen);
    assert (burst + [FireRuns(t)])[..|burst|] == burst;
    BurstReaches(s, t.key, fn, t.gen);
    ExecKeepsInv(s, burst);
    var m := Exec(s, burst);
    assert LiveValid(m, t.key);
    assert t in m.late && Takes(m.table, t.key, t.gen);
  }

  /** The same restart lets the callback of a context that ended long ago drop a
      later burst whose own context is still live: that burst never fires. */
  lemma StaleHookDropsALiveBurst(s: System, h: Hook, fn: Fn)
    requires Reachable(s) && !s.table.closed && !s.ownerEnded
    requires h in s.dropping && h.key !in s.ids
    ensures var u := Exec(s, Burst(h.key, fn, h.gen) + [DropRuns(h)]);
      && h.key !in u.table.entries && u.fired == s.fired
      && u.dropped == s.dropped[|s.subs| := Some(h)] && Hook(h.key, h.gen, |s.subs|) in u.hooked
  {
    hide Due, TimersValid, FiredValid, Accounted, Guarded, Stopped;
    ReachableInv(s);
    assert ArmedValid(s, h.key, h.gen, h.id);
    var burst := Burst(h.key, fn, h.gen);
    assert (burst + [DropRuns(h)])[..|burst|] == burst;
    BurstReaches(s, h.key, fn, h.gen);
    ExecKeepsInv(s, burst);
    var m := Exec(s, burst);
    assert LiveValid(m, h.key);
    assert h in m.dropping && Takes(m.table, h.key, h.gen);
  }

  /** A run that leaves a timer's callback late with its key let go: its context
      ends while it waits for the lock. */
  lemma StaleCallbackReached(c: Config, now: int, key: string, fn: Fn)
    ensures var t, h := Timer(key, 1, 0, Due(c, now, now)), Hook(key, 1, 0);
      && var s := Exec(Start(c, now), [Submits(key, fn), Tick(t.at), TimerStarts(t), CtxEnds(h), DropRuns(h)]);
      && Reachable(s) && s.config == c && !s.table.closed && !s.ownerEnded && t in s.late && key !in s.ids
  {
    var t, h := Timer(key, 1, 0, Due(c, now, now)), Hook(key, 1, 0);
    var events := [Submits(key, fn), Tick(t.at), TimerStarts(t), CtxEnds(h), DropRuns(h)];
    FirstFour(c, now, key, fn, TimerStarts(t), CtxEnds(h));
    assert events[..4] == [Submits(key, fn), Tick(t.at), TimerStarts(t), CtxEnds(h)];
    assert Exec(Start(c, now), events) == Step(Exec(Start(c, now), events[..4]), events[4]);
  }

  /** And one that leaves a context's callback so: the timer fires while it waits. */
  lemma StaleHookReached(c: Config, now: int, key: string, fn: Fn)
    ensures var t, h := Timer(key, 1, 0, Due(c, now, now)), Hook(key, 1, 0);
      && var s := Exec(Start(c, now), [Submits(key, fn), Tick(t.at), CtxEnds(h), TimerStarts(t), FireRuns(t)]);
      && Reachable(s) && s.config == c && !s.table.closed && !s.ownerEnded && h in s.dropping && key !in s.ids
  {
    var t, h := Timer(key, 1, 0, Due(c, now, now)), Hook(key, 1, 0);
    var events := [Submits(key, fn), Tick(t.at), CtxEnds(h), TimerStarts(t), FireRuns(t)];
    FirstFour(c, now, key, fn, CtxEnds(h), TimerStarts(t));
    assert events[..4] == [Submits(key, fn), Tick(t.at), CtxEnds(h), TimerStarts(t)];
    assert Exec(Start(c, now), events) == Step(Exec(Start(c, now), events[..4]), events[4]);
  }

  lemma FirstFour(c: Config, now: int, key: string, fn: Fn, a: Event, b: Event)
    ensures var s := Start(c, now);
      Exec(s, [Submits(key, fn), Tick(Due(c, now, now)), a, b])
      == Step(Step(Step(OnSubmits(s, key, fn), Tick(Due(c, now, now))), a), b)
  {
    hide Step, OnSubmits, Due;
    var s := Start(c, now);
    var events := [Submits(key, fn), Tick(Due(c, now, now)), a, b];
    TwoSteps(s, events[0], events[1]);
    assert events[..3][..2] == [events[0], events[1]];
    assert events[..3][2] == a && events[..4] == events;
    assert Exec(s, events) == Step(Exec(s, events[..3]), b);
    FirstSubmits(c, now, key, fn);
  }

  lemma FirstSubmits(c: Config, now: int, key: string, fn: Fn)
    ensures Step(Start(c, now), Submits(key, fn)) == OnSubmits(Start(c, now), key, fn)
  {
  }
}
