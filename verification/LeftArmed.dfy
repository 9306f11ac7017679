/** The debouncer: what can still be armed once an entry is over. */
module LeftArmed {
  import opened Prelude
  import opened Debounce

  /** The entry under number `id` was dropped by the cancelled context of another entry's event. */
  ghost predicate DroppedByAnother(s: System, id: nat) {
    id in s.dropped && s.dropped[id].Some? && s.dropped[id].value.id != id
  }

  /** The entry under number `id` was fired by another entry's late callback. */
  ghost predicate FiredByAnother(s: System, id: nat) {
    exists i | 0 <= i < |s.fired| :: s.fired[i].id == id && s.fired[i].cause.id != id
  }

  /** Nothing is armed for an entry that is over, but for one that another's callback ended. */
  ghost predicate OnlyForTaken(s: System) {
    && s.armed !! s.late
    && (forall t | t in s.armed :: Held(s, t.id) || FiredByAnother(s, t.id))
    && (forall h | h in s.hooked :: Held(s, h.id) || DroppedByAnother(s, h.id))
  }

  lemma FiredStays(s: System, u: System, id: nat)
    requires FiredByAnother(s, id) && s.fired <= u.fired
    ensures FiredByAnother(u, id)
  {
  }

  lemma HeldNumber(s: System, id: nat)
    requires EntriesValid(s) && Held(s, id)
    ensures s.keys[id] in s.table.entries && s.table.entries[s.keys[id]].gen == |s.subs[id]|
  {
    assert LiveValid(s, s.keys[id]);
  }

  /** The one timer that can be armed for a held entry is its own. */
  lemma OwnTimers(s: System, key: string)
    requires EntriesValid(s) && TimersValid(s) && key in s.ids
    ensures forall t | t in s.armed && t.id == s.ids[key] :: t == OwnTimer(s, key)
    ensures forall t | t in s.late && t.id == s.ids[key] && t.gen == s.table.entries[key].gen :: t == OwnTimer(s, key)
  {
    hide Due;
    assert LiveValid(s, key);
    forall t | t in s.armed && t.id == s.ids[key] ensures t == OwnTimer(s, key) {
      assert TimerValid(s, t) && Newest(s, t.gen, t.id);
    }
    forall t | t in s.late && t.id == s.ids[key] && t.gen == s.table.entries[key].gen ensures t == OwnTimer(s, key) {
      assert TimerValid(s, t);
    }
  }

  lemma OwnHooks(s: System, key: string)
    requires EntriesValid(s) && HooksValid(s) && key in s.ids
    ensures forall h | h in s.hooked && h.id == s.ids[key] :: h == OwnHook(s, key)
    ensures forall h | h in s.dropping && h.id == s.ids[key] && h.gen == s.table.entries[key].gen :: h == OwnHook(s, key)
  {
    assert LiveValid(s, key);
    forall h | h in s.hooked && h.id == s.ids[key] ensures h == OwnHook(s, key) {
      assert ArmedValid(s, h.key, h.gen, h.id) && Newest(s, h.gen, h.id);
    }
    forall h | h in s.dropping && h.id == s.ids[key] && h.gen == s.table.entries[key].gen ensures h == OwnHook(s, key) {
      assert ArmedValid(s, h.key, h.gen, h.id);
    }
  }

  lemma FiresKeeps(s: System, t: Timer)
    requires Inv(s) && OnlyForTaken(s) && t in s.late && Takes(s.table, t.key, t.gen)
    ensures OnlyForTaken(OnFireRuns(s, t))
  {
    hide FiredValid, Accounted, Guarded, TimersValid, HooksValid, EntriesValid;
    var u, id := OnFireRuns(s, t), IdOf(s, t.key);
    assert t.key in s.ids by { TakenIsHeld(s, t.key, t.gen); }
    OwnTimers(s, t.key);
    OwnHooks(s, t.key);
    var last := |s.fired|;
    assert u.fired[last].id == id && u.fired[last].cause == t;
    forall x | x in u.armed ensures Held(u, x.id) || FiredByAnother(u, x.id) {
      if FiredByAnother(s, x.id) { FiredStays(s, u, x.id); }
    }
  }

  lemma TakenIsHeld(s: System, key: string, gen: nat)
    requires EntriesValid(s) && Takes(s.table, key, gen)
    ensures key in s.ids
  {
  }

  lemma DropsKeeps(s: System, h: Hook)
    requires Inv(s) && OnlyForTaken(s) && h in s.dropping && Takes(s.table, h.key, h.gen)
    ensures OnlyForTaken(OnDropRuns(s, h))
  {
    hide FiredValid, Accounted, Guarded, TimersValid, EntriesValid;
    var u, id := OnDropRuns(s, h), IdOf(s, h.key);
    assert h.key in s.ids by { TakenIsHeld(s, h.key, h.gen); }
    OwnTimers(s, h.key);
    OwnHooks(s, h.key);
    hide HooksValid;
    forall x | x in u.armed ensures Held(u, x.id) || FiredByAnother(u, x.id) {
      if FiredByAnother(s, x.id) { FiredStays(s, u, x.id); }
    }
  }

  lemma ClosesKeeps(s: System)
    requires Inv(s) && OnlyForTaken(s)
    ensures OnlyForTaken(OnCloseRuns(s))
  {
    hide FiredValid, Guarded, Due;
    var u := OnCloseRuns(s);
    forall x | x in u.armed ensures FiredByAnother(u, x.id) {
      if Held(s, x.id) {
        assert TimerValid(s, x) && Newest(s, x.gen, x.id);
        HeldNumber(s, x.id);
      }
      FiredStays(s, u, x.id);
    }
    forall h | h in u.hooked ensures DroppedByAnother(u, h.id) {
      if Held(s, h.id) {
        assert ArmedValid(s, h.key, h.gen, h.id) && Newest(s, h.gen, h.id);
        HeldNumber(s, h.id);
      }
      assert DroppedValid(s, h.id);
    }
  }

  /** The timer an event arms is new: every one that has started is of an earlier event. */
  lemma NewTimer(s: System, key: string, fn: Fn)
    requires EntriesValid(s) && TimersValid(s) && s.armed !! s.late
    ensures OnSubmits(s, key, fn).armed !! s.late
  {
    hide Due, Held, LiveValid, SubsValid;
    assert key in s.ids ==> s.ids[key] < |s.subs| && s.table.entries[key].gen == |s.subs[s.ids[key]]| by { NumberOf(s, key); }
    assert forall t | t in s.late :: TimerValid(s, t);
  }

  lemma NumberOf(s: System, key: string)
    requires EntriesValid(s)
    ensures key in s.ids ==> s.ids[key] < |s.subs| && s.table.entries[key].gen == |s.subs[s.ids[key]]|
    ensures key in s.ids ==> s.ids[key] < |s.keys| && s.keys[s.ids[key]] == key
  {
    assert key in s.ids ==> LiveValid(s, key);
  }

  lemma SubmitsKeeps(s: System, key: string, fn: Fn)
    requires Inv(s) && OnlyForTaken(s) && !s.table.closed
    ensures OnlyForTaken(OnSubmits(s, key, fn))
  {
    hide FiredValid, Accounted, Guarded, Due, HooksValid, TimersValid;
    var u, id := OnSubmits(s, key, fn), IdOf(s, key);
    NumberOf(s, key);
    NewTimer(s, key, fn);
    assert |s.keys| == |s.subs|;
    hide EntriesValid;
    forall x | x in u.armed ensures Held(u, x.id) || FiredByAnother(u, x.id) {
      if x in s.armed && FiredByAnother(s, x.id) { FiredStays(s, u, x.id); }
    }
  }

  /** The events that take nothing from the table arm nothing. */
  lemma OthersKeep(s: System, e: Event)
    requires OnlyForTaken(s) && !e.Submits? && !e.CloseRuns?
    requires e.FireRuns? ==> !(e.t in s.late && Takes(s.table, e.t.key, e.t.gen))
    requires e.DropRuns? ==> !(e.h in s.dropping && Takes(s.table, e.h.key, e.h.gen))
    ensures OnlyForTaken(Step(s, e))
  {
    hide Takes;
    var u := Step(s, e);
    assert u.ids == s.ids && u.keys == s.keys && u.fired == s.fired && u.dropped == s.dropped;
    assert u.armed <= s.armed && u.hooked <= s.hooked;
    forall x | x in u.armed ensures Held(u, x.id) || FiredByAnother(u, x.id) {
      if FiredByAnother(s, x.id) { FiredStays(s, u, x.id); }
    }
  }

  lemma StepKeeps(s: System, e: Event)
    requires Inv(s) && OnlyForTaken(s)
    ensures OnlyForTaken(Step(s, e))
  {
    hide Inv, OnSubmits, OnFireRuns, OnDropRuns, OnCloseRuns, OnlyForTaken;
    match e
    case Submits(key, fn) => if !s.table.closed && !s.ownerEnded { SubmitsKeeps(s, key, fn); }
    case FireRuns(t) =>
      if t in s.late && Takes(s.table, t.key, t.gen) { FiresKeeps(s, t); } else { OthersKeep(s, e); }
    case DropRuns(h) =>
      if h in s.dropping && Takes(s.table, h.key, h.gen) { DropsKeeps(s, h); } else { OthersKeep(s, e); }
    case CloseRuns => if s.ownerEnded { ClosesKeeps(s); }
    case _ => OthersKeep(s, e);
  }

  /**
   * Over every run: a timer still armed belongs to an entry that is held, or that another entry's late
   * callback fired; a hook to one that is held, or that another's cancellation dropped. So a burst that
   * its own timer fired, its own context cancelled or the close dropped leaves nothing behind.
   */
  lemma {:induction false} NothingLeftArmed(c: Config, now: int, events: seq<Event>)
    ensures Inv(Exec(Start(c, now), events)) && OnlyForTaken(Exec(Start(c, now), events))
  {
    hide Inv, Step, OnlyForTaken;
    if events == [] {
      NothingArmed(c, now);
    } else {
      var most, last := events[..|events| - 1], events[|events| - 1];
      NothingLeftArmed(c, now, most);
      StepKeepsInv(Exec(Start(c, now), most), last);
      StepKeeps(Exec(Start(c, now), most), last);
    }
  }

  lemma NothingArmed(c: Config, now: int)
    ensures Inv(Start(c, now)) && OnlyForTaken(Start(c, now))
  {
    StartInv(c, now);
  }
}
