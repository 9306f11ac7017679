/** The write passes that follow a refresh: one at a time, and a queue of one where the newest wins. */
module Writes {

  import opened Prelude

  /** The snapshot waiting for the running pass, and how many it stands in for. */
  datatype Queued<S> = Queued(snap: S, n: nat)

  datatype Slot<S> = Slot(writing: bool, queued: Option<Queued<S>>)

  function Brought<S>(s: Slot<S>, snap: S): Slot<S> {
    if s.writing
    then s.(queued := Some(Queued(snap, 1 + (if s.queued.Some? then s.queued.value.n else 0))))
    else s.(writing := true)
  }

  function PassEnded<S>(s: Slot<S>): Slot<S> {
    Slot(if s.queued.None? then false else s.writing, None)
  }

  class WriteSlot<S> {
    var writing: bool
    var queuedWrites: Option<Queued<S>>

    function View(): Slot<S>
      reads this
    {
      Slot(writing, queuedWrites)
    }

    constructor ()
      ensures View() == Slot(false, None)
    {
      writing, queuedWrites := false, None;
    }

    /** runWrites up to the point where its pass is started; false when `snap` was queued. */
    method RunWrites(snap: S) returns (starts: bool)
      modifies this
      ensures View() == Brought(old(View()), snap)
      ensures starts == !old(writing)
    {
      if writing {
        var n := 1;
        if queuedWrites.Some? {
          n := n + queuedWrites.value.n;
        }
        queuedWrites := Some(Queued(snap, n));
        return false;
      }
      writing := true;
      starts := true;
    }

    /** finishWrites: the queued snapshot, which gets the next pass at once, if any. */
    method FinishWrites() returns (next: Option<Queued<S>>)
      modifies this
      ensures View() == PassEnded(old(View()))
      ensures next == old(queuedWrites)
    {
      next := queuedWrites;
      queuedWrites := None;
      if next.None? {
        writing := false;
      }
    }
  }

  // ---- Any interleaving of refreshes and pass ends ----

  datatype Event<S> = Brings(snap: S) | Ends

  /** A pass that started: the snapshot it runs on, and how many it stands for. */
  datatype Pass<S> = Pass(snap: S, n: nat)

  /** `given` is every snapshot brought so far, `passes` every pass started, `ended` how many are over. */
  datatype System<S> = System(slot: Slot<S>, given: seq<S>, passes: seq<Pass<S>>, ended: nat)

  function Start<S>(): System<S> {
    System(Slot(false, None), [], [], 0)
  }

  function Step<S>(s: System<S>, e: Event<S>): System<S> {
    match e
    case Brings(snap) =>
      System(Brought(s.slot, snap), s.given + [snap],
             if s.slot.writing then s.passes else s.passes + [Pass(snap, 1)], s.ended)
    case Ends =>
      if s.ended == |s.passes| then s
      else
        System(PassEnded(s.slot), s.given,
               if s.slot.queued.Some? then s.passes + [Pass(s.slot.queued.value.snap, s.slot.queued.value.n)] else s.passes,
               s.ended + 1)
  }

  function Exec<S>(events: seq<Event<S>>): System<S> {
    if events == [] then Start()
    else Step(Exec(events[..|events| - 1]), events[|events| - 1])
  }

  /** How many snapshots the passes stand for. */
  function StoodFor<S>(passes: seq<Pass<S>>): nat {
    if passes == [] then 0
    else StoodFor(passes[..|passes| - 1]) + passes[|passes| - 1].n
  }

  function Waiting<S>(slot: Slot<S>): nat {
    if slot.queued.Some? then slot.queued.value.n else 0
  }

  /** The passes split `given` into blocks, in order: each pass stands for the
      block that ends at its own snapshot. */
  ghost predicate Blocks<S>(given: seq<S>, passes: seq<Pass<S>>) {
    passes == [] ||
    var last := passes[|passes| - 1];
    && last.n > 0
    && StoodFor(passes) <= |given|
    && given[StoodFor(passes) - 1] == last.snap
    && Blocks(given, passes[..|passes| - 1])
  }

  ghost predicate Inv<S>(s: System<S>) {
    && |s.passes| == s.ended + (if s.slot.writing then 1 else 0)
    && (s.slot.queued.Some? ==>
          s.slot.writing && s.slot.queued.value.n > 0 && s.given != [] && s.slot.queued.value.snap == s.given[|s.given| - 1])
    && |s.given| == StoodFor(s.passes) + Waiting(s.slot)
    && Blocks(s.given, s.passes)
  }

  lemma {:induction false} BlocksGrow<S>(given: seq<S>, passes: seq<Pass<S>>, snap: S)
    requires Blocks(given, passes)
    ensures Blocks(given + [snap], passes)
  {
    if passes != [] {
      BlocksGrow(given, passes[..|passes| - 1], snap);
    }
  }

  lemma BlocksAppend<S>(given: seq<S>, passes: seq<Pass<S>>, pass: Pass<S>)
    requires Blocks(given, passes) && pass.n > 0
    requires StoodFor(passes) + pass.n == |given| && given[|given| - 1] == pass.snap
    ensures Blocks(given, passes + [pass]) && StoodFor(passes + [pass]) == |given|
  {
    assert (passes + [pass])[..|passes|] == passes;
  }

  lemma BringsKeepsInv<S>(s: System<S>, snap: S)
    requires Inv(s)
    ensures Inv(Step(s, Brings(snap)))
  {
    BlocksGrow(s.given, s.passes, snap);
    if !s.slot.writing {
      BlocksAppend(s.given + [snap], s.passes, Pass(snap, 1));
    }
  }

  lemma EndsKeepsInv<S>(s: System<S>)
    requires Inv(s)
    ensures Inv(Step(s, Ends))
  {
    if s.slot.queued.Some? {
      BlocksAppend(s.given, s.passes, Pass(s.slot.queued.value.snap, s.slot.queued.value.n));
    }
  }

  lemma {:induction false} ExecKeepsInv<S>(events: seq<Event<S>>)
    ensures Inv(Exec(events))
  {
    if events != [] {
      ExecKeepsInv(events[..|events| - 1]);
      match events[|events| - 1] {
        case Brings(snap) => BringsKeepsInv(Exec(events[..|events| - 1]), snap);
        case Ends => EndsKeepsInv(Exec(events[..|events| - 1]));
      }
    }
  }

  /** At most one pass runs at a time, and a snapshot waits only while one does.
      Nothing is lost or counted twice: the calls are the snapshots the passes
      stand for plus the ones the queue stands for. */
  lemma {:induction false} OnePassAtATime<S>(events: seq<Event<S>>)
    ensures var s := Exec(events);
      && s.ended <= |s.passes| <= s.ended + 1
      && (s.slot.writing <==> s.ended < |s.passes|)
      && (s.slot.queued.Some? ==> s.ended < |s.passes|)
      && |s.given| == StoodFor(s.passes) + Waiting(s.slot)
  {
    ExecKeepsInv(events);
  }

  /** The pass among `passes` whose block holds call `j`, and the call it runs on. */
  lemma {:induction false} BlockOf<S>(given: seq<S>, passes: seq<Pass<S>>, j: nat) returns (p: nat, newest: nat)
    requires Blocks(given, passes) && j < StoodFor(passes)
    ensures p < |passes| && j <= newest < StoodFor(passes) <= |given|
    ensures StoodFor(passes[..p]) <= j && newest == StoodFor(passes[..p + 1]) - 1
    ensures given[newest] == passes[p].snap
  {
    var init := passes[..|passes| - 1];
    if j < StoodFor(init) {
      p, newest := BlockOf(given, init, j);
      assert init[..p] == passes[..p] && init[..p + 1] == passes[..p + 1];
    } else {
      p, newest := |passes| - 1, StoodFor(passes) - 1;
      assert passes[..p + 1] == passes;
    }
  }

  /** The call pass `p` runs on: the newest of the block it stands for. */
  function RunsOn<S>(passes: seq<Pass<S>>, p: nat): int
    requires p < |passes|
  {
    StoodFor(passes[..p + 1]) - 1
  }

  /** Every call to runWrites is stood for by exactly one pass, on that call's own
      snapshot or on that of a later call, or else by the queue, which holds the
      snapshot of the newest call of all. */
  lemma NothingIsForgotten<S>(events: seq<Event<S>>, j: nat)
    requires j < |Exec(events).given|
    ensures var s := Exec(events);
      if j < StoodFor(s.passes)
      then exists p :: 0 <= p < |s.passes| && StoodFor(s.passes[..p]) <= j <= RunsOn(s.passes, p) < |s.given|
                       && s.passes[p].snap == s.given[RunsOn(s.passes, p)]
      else s.slot.queued == Some(Queued(s.given[|s.given| - 1], |s.given| - StoodFor(s.passes)))
  {
    ExecKeepsInv(events);
    var s := Exec(events);
    if j < StoodFor(s.passes) {
      var p, newest := BlockOf(s.given, s.passes, j);
      assert RunsOn(s.passes, p) == newest;
    }
  }

  lemma {:induction false} StoodForGrows<S>(passes: seq<Pass<S>>, p: nat, q: nat)
    requires p <= q <= |passes|
    ensures StoodFor(passes[..p]) <= StoodFor(passes[..q])
    decreases q
  {
    if p < q {
      StoodForGrows(passes, p, q - 1);
      assert passes[..q][..q - 1] == passes[..q - 1];
    }
  }

  /** And by no more than one: the blocks of two passes have no call in common. */
  lemma StoodForOnce<S>(passes: seq<Pass<S>>, p: nat, q: nat, j: nat)
    requires p < |passes| && q < |passes|
    requires StoodFor(passes[..p]) <= j <= RunsOn(passes, p) && StoodFor(passes[..q]) <= j <= RunsOn(passes, q)
    ensures p == q
  {
    if p < q {
      StoodForGrows(passes, p + 1, q);
    } else if q < p {
      StoodForGrows(passes, q + 1, p);
    }
  }

  /** The pass that is running, once it ends, is followed at once by one on the
      newest snapshot, which stands for every call that had to wait. */
  lemma QueuedRunsNext<S>(s: System<S>)
    requires (exists events :: s == Exec(events)) && s.slot.queued.Some?
    ensures 0 <= StoodFor(s.passes) < |s.given|
    ensures Step(s, Ends) == System(Slot(true, None), s.given,
                                    s.passes + [Pass(s.given[|s.given| - 1], |s.given| - StoodFor(s.passes))], s.ended + 1)
  {
    var events :| s == Exec(events);
    ExecKeepsInv(events);
  }
}
