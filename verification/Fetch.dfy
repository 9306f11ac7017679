/** One pass over the sources after another: who is asked, whose answer counts, and what is left running. */
module Fetches {
  import opened Prelude

  /** What a source says. */
  type Res = string

  /** A source's answer on its way: by its place among the sources, and what it says. */
  datatype Answer = Answer(i: nat, res: Res)

  /** What a pass has of a source: carried over unasked, skipped as still running, answered, or timed out. */
  datatype Result = Carried | Busy | Answered(res: Res) | TimedOut

  /**
   * A pass over `n` sources. It launches them one by one, `next` being the next, and then collects.
   * `buffer` is its channel, which holds `n` answers.
   */
  datatype Pass = Pass(next: nat, pending: set<nat>, results: map<nat, Result>, buffer: seq<Answer>, over: bool)

  /** A fetch's goroutine: pass and source. While `fetching` it asks; then it clears the mark and sends. */
  datatype Task = Task(pass: nat, i: nat, answer: Option<Res>)

  /** `marks` are the sources' in-flight marks. One pass runs at a time; tasks of earlier ones may linger. */
  datatype State = State(n: nat, marks: set<nat>, passes: seq<Pass>, tasks: set<Task>)

  datatype Event =
    | Begins
    | Launches(held: bool)
    | Returns(pass: nat, i: nat, res: Res)
    | Sends(task: Task)
    | Receives
    | Expires
    | Ends

  function WithLast(s: State, p: Pass): State
    requires s.passes != []
  {
    s.(passes := s.passes[|s.passes| - 1 := p])
  }

  function OnBegins(s: State): State {
    if s.passes != [] && !s.passes[|s.passes| - 1].over then s
    else s.(passes := s.passes + [Pass(0, {}, map[], [], false)])
  }

  /** One turn of the launch loop: a source held back, one whose last fetch still runs, or one asked. */
  function OnLaunches(s: State, held: bool): State {
    if s.passes == [] then s
    else
      var p := s.passes[|s.passes| - 1];
      if p.over || p.next >= s.n then s
      else if held then WithLast(s, p.(next := p.next + 1, results := p.results[p.next := Carried]))
      else if p.next in s.marks then WithLast(s, p.(next := p.next + 1, results := p.results[p.next := Busy]))
      else
        WithLast(s, p.(next := p.next + 1, pending := p.pending + {p.next}))
        .(marks := s.marks + {p.next}, tasks := s.tasks + {Task(|s.passes| - 1, p.next, None)})
  }

  /** The source answers: the mark clears whether or not the pass still listens. */
  function OnReturns(s: State, pass: nat, i: nat, res: Res): State {
    if Task(pass, i, None) !in s.tasks then s
    else s.(marks := s.marks - {i}, tasks := s.tasks - {Task(pass, i, None)} + {Task(pass, i, Some(res))})
  }

  /** Whether a send finds room in its pass's channel. */
  predicate Room(s: State, pass: nat) {
    pass < |s.passes| && |s.passes[pass].buffer| < s.n
  }

  function OnSends(s: State, task: Task): State {
    if task !in s.tasks || task.answer.None? || !Room(s, task.pass) then s
    else
      var p := s.passes[task.pass];
      s.(passes := s.passes[task.pass := p.(buffer := p.buffer + [Answer(task.i, task.answer.value)])], tasks := s.tasks - {task})
  }

  function OnReceives(s: State): State {
    if s.passes == [] then s
    else
      var p := s.passes[|s.passes| - 1];
      if p.over || p.next < s.n || p.buffer == [] then s
      else
        var a := p.buffer[0];
        WithLast(s, p.(pending := p.pending - {a.i}, results := p.results[a.i := Answered(a.res)], buffer := p.buffer[1..]))
  }

  /** The deadline, once the channel is drained: a source still pending gets an unreachable result. */
  function OnExpires(s: State): State {
    if s.passes == [] then s
    else
      var p := s.passes[|s.passes| - 1];
      if p.over || p.next < s.n || p.buffer != [] then s
      else WithLast(s, p.(pending := {}, results := p.results + map i | i in p.pending :: TimedOut, over := true))
  }

  function OnEnds(s: State): State {
    if s.passes == [] then s
    else
      var p := s.passes[|s.passes| - 1];
      if p.over || p.next < s.n || p.pending != {} then s else WithLast(s, p.(over := true))
  }

  function Step(s: State, e: Event): State {
    match e
    case Begins => OnBegins(s)
    case Launches(held) => OnLaunches(s, held)
    case Returns(pass, i, res) => OnReturns(s, pass, i, res)
    case Sends(task) => OnSends(s, task)
    case Receives => OnReceives(s)
    case Expires => OnExpires(s)
    case Ends => OnEnds(s)
  }

  function Start(n: nat): State {
    State(n, {}, [], {})
  }

  function Exec(n: nat, events: seq<Event>): State {
    if events == [] then Start(n)
    else Step(Exec(n, events[..|events| - 1]), events[|events| - 1])
  }

  ghost predicate Reachable(s: State) {
    exists events :: s == Exec(s.n, events)
  }

  // ---- The invariants ----

  ghost predicate Buffered(p: Pass, i: nat) {
    exists k | 0 <= k < |p.buffer| :: p.buffer[k].i == i
  }

  ghost predicate OnTheWay(s: State, pass: nat, i: nat) {
    exists t | t in s.tasks :: t.pass == pass && t.i == i
  }

  /** A source is asked by one task of a pass at most, and its answer is then nowhere else. */
  ghost predicate OneEach(s: State, k: nat)
    requires k < |s.passes|
  {
    var p := s.passes[k];
    && (forall t | t in s.tasks && t.pass == k :: t.i < p.next && !Buffered(p, t.i))
    && (forall a | 0 <= a < |p.buffer| :: p.buffer[a].i < p.next)
    && (forall a, b | 0 <= a < b < |p.buffer| :: p.buffer[a].i != p.buffer[b].i)
  }

  /** A pass still under way waits for exactly the answers on their way, and has the rest. */
  ghost predicate Accounted(s: State, k: nat)
    requires k < |s.passes|
  {
    var p := s.passes[k];
    && p.next <= s.n
    && (forall i: nat :: i in p.results <==> i < p.next && i !in p.pending)
    && (!p.over ==> forall i: nat :: i in p.pending <==> OnTheWay(s, k, i) || Buffered(p, i))
    && (p.over ==> p.pending == {} && p.next == s.n)
  }

  /** Every source with a fetch running is marked, and no two fetches of one run at once. */
  ghost predicate Marked(s: State) {
    && (forall t | t in s.tasks :: t.pass < |s.passes| && (t.answer.None? ==> t.i in s.marks))
    && (forall t, t' | t in s.tasks && t' in s.tasks && t.i == t'.i && t.answer.None? && t'.answer.None? :: t == t')
    && (forall t, t' | t in s.tasks && t' in s.tasks && t.i == t'.i && t.pass == t'.pass :: t == t')
  }

  ghost predicate Inv(s: State) {
    && Marked(s)
    && (forall k | 0 <= k < |s.passes| :: OneEach(s, k) && Accounted(s, k))
    && (forall k | 0 <= k < |s.passes| - 1 :: s.passes[k].over)
  }

  // ---- Every step keeps them ----

  /** A pass a step does not touch, and whose answers on their way are the same, stays as it should be. */
  lemma OtherPass(s: State, s': State, k: nat)
    requires k < |s.passes| && k < |s'.passes| && s'.passes[k] == s.passes[k] && s'.n == s.n
    requires forall i: nat :: OnTheWay(s', k, i) <==> OnTheWay(s, k, i)
    requires OneEach(s, k) && Accounted(s, k)
    ensures OneEach(s', k) && Accounted(s', k)
  {
    forall t | t in s'.tasks && t.pass == k ensures t.i < s.passes[k].next && !Buffered(s.passes[k], t.i) {
      assert OnTheWay(s', k, t.i);
    }
  }

  lemma LaunchesLast(s: State, held: bool)
    requires s.passes != [] && OneEach(s, |s.passes| - 1) && Accounted(s, |s.passes| - 1)
    ensures OneEach(OnLaunches(s, held), |s.passes| - 1) && Accounted(OnLaunches(s, held), |s.passes| - 1)
  {
    var s', last := OnLaunches(s, held), |s.passes| - 1;
    var p, p' := s.passes[last], s'.passes[last];
    if s' != s {
      assert p'.buffer == p.buffer;
      assert forall j: nat :: Buffered(p', j) <==> Buffered(p, j);
      forall j: nat ensures j in p'.pending <==> OnTheWay(s', last, j) || Buffered(p', j) {
        if s'.tasks != s.tasks {
          assert Task(last, p.next, None) in s'.tasks;
        }
        assert OnTheWay(s, last, j) ==> OnTheWay(s', last, j);
        assert j in p.pending <==> OnTheWay(s, last, j) || Buffered(p, j);
      }
    }
  }

  lemma LaunchesMarked(s: State, held: bool)
    requires Inv(s)
    ensures Marked(OnLaunches(s, held))
  {
    if s.passes != [] {
      assert OneEach(s, |s.passes| - 1);
    }
  }

  lemma LaunchesLeaves(s: State, held: bool, k: nat)
    requires k < |s.passes| - 1
    ensures var s' := OnLaunches(s, held);
      && |s'.passes| == |s.passes| && s'.passes[k] == s.passes[k] && s'.n == s.n
      && forall i: nat :: OnTheWay(s', k, i) <==> OnTheWay(s, k, i)
  {
    var s' := OnLaunches(s, held);
    assert forall t: Task | t.pass == k :: t in s'.tasks <==> t in s.tasks;
  }

  lemma LaunchesKeeps(s: State, held: bool)
    requires Inv(s)
    ensures Inv(OnLaunches(s, held))
  {
    hide OneEach, Accounted, Marked, OnTheWay;
    var s', last := OnLaunches(s, held), |s.passes| - 1;
    LaunchesMarked(s, held);
    if s' != s {
      LaunchesLast(s, held);
      forall k | 0 <= k < last ensures OneEach(s', k) && Accounted(s', k) {
        LaunchesLeaves(s, held, k);
        OtherPass(s, s', k);
      }
    }
  }

  lemma BeginsKeeps(s: State)
    requires Inv(s)
    ensures Inv(OnBegins(s))
  {
    var s' := OnBegins(s);
    if s' != s {
      var last := |s.passes|;
      assert Marked(s');
      forall k | 0 <= k < last ensures OneEach(s', k) && Accounted(s', k) {
        assert forall i: nat :: OnTheWay(s', k, i) <==> OnTheWay(s, k, i);
        OtherPass(s, s', k);
      }
      assert forall i: nat :: !OnTheWay(s', last, i) && !Buffered(s'.passes[last], i);
      var p := s'.passes[last];
      assert p == Pass(0, {}, map[], [], false);
      assert OneEach(s', last);
      assert forall i: nat :: i in p.pending <==> OnTheWay(s', last, i) || Buffered(p, i);
      assert forall i: nat :: i in p.results <==> i < p.next && i !in p.pending;
    }
  }

  lemma ReturnsKeeps(s: State, pass: nat, i: nat, res: Res)
    requires Inv(s)
    ensures Inv(OnReturns(s, pass, i, res))
  {
    var s' := OnReturns(s, pass, i, res);
    if s' != s {
      assert Marked(s');
      forall k | 0 <= k < |s.passes| ensures OneEach(s', k) && Accounted(s', k) {
        forall j: nat ensures OnTheWay(s', k, j) <==> OnTheWay(s, k, j) {
          if OnTheWay(s, k, j) {
            var t :| t in s.tasks && t.pass == k && t.i == j;
            assert t in s'.tasks || Task(pass, i, Some(res)) in s'.tasks;
          }
        }
        OtherPass(s, s', k);
      }
    }
  }

  /** The pass an answer is sent to: the answer moves from its task to the channel. */
  lemma SendsPass(s: State, task: Task)
    requires Inv(s) && task in s.tasks && task.pass < |s.passes|
    ensures OneEach(OnSends(s, task), task.pass) && Accounted(OnSends(s, task), task.pass)
  {
    var s', k := OnSends(s, task), task.pass;
    var p, p' := s.passes[k], s'.passes[k];
    assert OneEach(s, k) && Accounted(s, k);
    if s' != s {
      forall j: nat ensures Buffered(p', j) <==> Buffered(p, j) || j == task.i {
        if Buffered(p, j) {
          var a :| 0 <= a < |p.buffer| && p.buffer[a].i == j;
          assert p'.buffer[a].i == j;
        }
        assert p'.buffer[|p.buffer|].i == task.i;
      }
      forall j: nat ensures OnTheWay(s', k, j) <==> OnTheWay(s, k, j) && j != task.i {
        if OnTheWay(s, k, j) && j != task.i {
          var t :| t in s.tasks && t.pass == k && t.i == j;
          assert t in s'.tasks;
        }
      }
      assert OnTheWay(s, k, task.i);
      forall a | 0 <= a < |p.buffer| ensures p.buffer[a].i != task.i {
        assert Buffered(p, p.buffer[a].i);
      }
    }
  }

  lemma SendsKeeps(s: State, task: Task)
    requires Inv(s)
    ensures Inv(OnSends(s, task))
  {
    var s' := OnSends(s, task);
    if s' != s {
      assert Marked(s');
      SendsPass(s, task);
      forall k | 0 <= k < |s.passes| && k != task.pass ensures OneEach(s', k) && Accounted(s', k) {
        forall j: nat ensures OnTheWay(s', k, j) <==> OnTheWay(s, k, j) {
          if OnTheWay(s, k, j) {
            var t :| t in s.tasks && t.pass == k && t.i == j;
            assert t in s'.tasks;
          }
        }
        OtherPass(s, s', k);
      }
    }
  }

  lemma ReceivesLast(s: State)
    requires Inv(s) && s.passes != []
    ensures OneEach(OnReceives(s), |s.passes| - 1) && Accounted(OnReceives(s), |s.passes| - 1)
  {
    var s', k := OnReceives(s), |s.passes| - 1;
    var p, p' := s.passes[k], s'.passes[k];
    assert OneEach(s, k) && Accounted(s, k);
    if s' != s {
      var i := p.buffer[0].i;
      assert Buffered(p, i);
      forall j: nat ensures Buffered(p', j) <==> Buffered(p, j) && j != i {
        if Buffered(p, j) && j != i {
          var a :| 0 <= a < |p.buffer| && p.buffer[a].i == j;
          assert p'.buffer[a - 1].i == j;
        }
        if Buffered(p', j) {
          var a :| 0 <= a < |p'.buffer| && p'.buffer[a].i == j;
          assert p.buffer[a + 1].i == j;
        }
      }
      assert forall j: nat :: OnTheWay(s', k, j) <==> OnTheWay(s, k, j);
    }
  }

  lemma LastOnly(s: State, s': State)
    requires Inv(s) && s.passes != [] && |s'.passes| == |s.passes| && s'.n == s.n
    requires s'.tasks == s.tasks && s'.marks == s.marks
    requires forall k | 0 <= k < |s.passes| - 1 :: s'.passes[k] == s.passes[k]
    requires OneEach(s', |s.passes| - 1) && Accounted(s', |s.passes| - 1)
    ensures Inv(s')
  {
    forall k | 0 <= k < |s.passes| - 1 ensures OneEach(s', k) && Accounted(s', k) {
      assert forall j: nat :: OnTheWay(s', k, j) <==> OnTheWay(s, k, j);
      OtherPass(s, s', k);
    }
  }

  lemma OverLast(s: State, s': State)
    requires Inv(s) && (s' == OnExpires(s) || s' == OnEnds(s))
    ensures Inv(s')
  {
    if s' != s {
      var k := |s.passes| - 1;
      assert OneEach(s, k) && Accounted(s, k);
      assert s'.passes[k].buffer == s.passes[k].buffer;
      assert forall j: nat :: Buffered(s'.passes[k], j) <==> Buffered(s.passes[k], j);
      LastOnly(s, s');
    }
  }

  lemma StepKeeps(s: State, e: Event)
    requires Inv(s)
    ensures Inv(Step(s, e))
  {
    match e
    case Begins => BeginsKeeps(s);
    case Launches(held) => LaunchesKeeps(s, held);
    case Returns(pass, i, res) => ReturnsKeeps(s, pass, i, res);
    case Sends(task) => SendsKeeps(s, task);
    case Receives =>
      if s.passes != [] {
        ReceivesLast(s);
        LastOnly(s, OnReceives(s));
      }
    case Expires => OverLast(s, OnExpires(s));
    case Ends => OverLast(s, OnEnds(s));
  }

  lemma {:induction false} ExecInv(n: nat, events: seq<Event>)
    ensures Inv(Exec(n, events)) && Exec(n, events).n == n
  {
    if events != [] {
      ExecInv(n, events[..|events| - 1]);
      StepKeeps(Exec(n, events[..|events| - 1]), events[|events| - 1]);
    }
  }

  lemma ReachableInv(s: State)
    requires Reachable(s)
    ensures Inv(s)
  {
    var events :| s == Exec(s.n, events);
    ExecInv(s.n, events);
  }

  // ---- The theorems ----

  /** No source is ever asked twice at once, by one pass or by two. */
  lemma OneFetchAtATime(s: State, t: Task, t': Task)
    requires Reachable(s) && t in s.tasks && t' in s.tasks && t.i == t'.i && t.answer.None? && t'.answer.None?
    ensures t == t'
  {
    ReachableInv(s);
  }

  /** A pass that is over has exactly one result for each source, and waits for none. */
  lemma OneResultEach(s: State, k: nat)
    requires Reachable(s) && k < |s.passes| && s.passes[k].over
    ensures s.passes[k].pending == {} && forall i: nat :: i in s.passes[k].results <==> i < s.n
  {
    ReachableInv(s);
    assert Accounted(s, k);
  }

  // ---- When a source is asked ----

  /** A fetch of source `i` is still running, of whatever pass. */
  ghost predicate Running(s: State, i: nat) {
    exists t | t in s.tasks :: t.i == i && t.answer.None?
  }

  lemma StepMarked(s: State, e: Event)
    requires forall i | i in s.marks :: Running(s, i)
    ensures forall i | i in Step(s, e).marks :: Running(Step(s, e), i)
  {
    var u := Step(s, e);
    forall i | i in u.marks ensures Running(u, i) {
      if i in s.marks {
        var t :| t in s.tasks && t.i == i && t.answer.None?;
        assert t in u.tasks;
      } else {
        assert Task(|s.passes| - 1, i, None) in u.tasks;
      }
    }
  }

  lemma {:induction false} MarksAreRunning(n: nat, events: seq<Event>)
    ensures forall i | i in Exec(n, events).marks :: Running(Exec(n, events), i)
  {
    if events != [] {
      MarksAreRunning(n, events[..|events| - 1]);
      StepMarked(Exec(n, events[..|events| - 1]), events[|events| - 1]);
    }
  }

  /** A source is marked exactly while a fetch of it runs: the mark goes with the answer, heard or not. */
  lemma MarkedIff(s: State, i: nat)
    requires Reachable(s)
    ensures i in s.marks <==> Running(s, i)
  {
    ReachableInv(s);
    var events :| s == Exec(s.n, events);
    MarksAreRunning(s.n, events);
  }

  /**
   * A source not held back is asked exactly when no earlier fetch of it is still running, and is passed
   * over as busy exactly when one is.
   */
  lemma AskedIff(s: State)
    requires Reachable(s) && s.passes != []
    requires !s.passes[|s.passes| - 1].over && s.passes[|s.passes| - 1].next < s.n
    ensures var k, i, u := |s.passes| - 1, s.passes[|s.passes| - 1].next, OnLaunches(s, false);
      && |u.passes| == |s.passes| && u.passes[k].next == i + 1
      && (if Running(s, i) then u.tasks == s.tasks && u.passes[k].results == s.passes[k].results[i := Busy]
          else u.tasks == s.tasks + {Task(k, i, None)} && Task(k, i, None) !in s.tasks && i in u.passes[k].pending)
  {
    MarkedIff(s, s.passes[|s.passes| - 1].next);
  }

  /** The launch of pass `k` came to source `i` at the `l`th event, and found a fetch of it still running. */
  ghost predicate FoundRunning(n: nat, events: seq<Event>, l: nat, k: nat, i: nat) {
    && l < |events| && events[l] == Launches(false)
    && var s := Exec(n, events[..l]);
       |s.passes| == k + 1 && s.passes[k].next == i && Running(s, i)
  }

  lemma BusyFrom(s: State, e: Event, k: nat, i: nat)
    requires Reachable(s) && k < |Step(s, e).passes|
    requires i in Step(s, e).passes[k].results && Step(s, e).passes[k].results[i] == Busy
    ensures (k < |s.passes| && i in s.passes[k].results && s.passes[k].results[i] == Busy)
            || (e == Launches(false) && |s.passes| == k + 1 && s.passes[k].next == i && Running(s, i))
  {
    MarkedIff(s, i);
  }

  /** Over every run: a pass has a source as busy only if an earlier fetch of it was running when it came to it. */
  lemma {:induction false} BusyOnlyWhileRunning(n: nat, events: seq<Event>, k: nat, i: nat) returns (l: nat)
    requires k < |Exec(n, events).passes|
    requires i in Exec(n, events).passes[k].results && Exec(n, events).passes[k].results[i] == Busy
    ensures FoundRunning(n, events, l, k, i)
  {
    var most, last := events[..|events| - 1], events[|events| - 1];
    var s := Exec(n, most);
    ExecInv(n, most);
    assert Reachable(s) by { assert s == Exec(s.n, most); }
    BusyFrom(s, last, k, i);
    if k < |s.passes| && i in s.passes[k].results && s.passes[k].results[i] == Busy {
      l := BusyOnlyWhileRunning(n, most, k, i);
      assert most[..l] == events[..l];
    } else {
      l := |most|;
    }
  }

  function Sources(buffer: seq<Answer>): set<nat> {
    set k | 0 <= k < |buffer| :: buffer[k].i
  }

  lemma {:induction false} DistinctCount(buffer: seq<Answer>)
    requires forall a, b | 0 <= a < b < |buffer| :: buffer[a].i != buffer[b].i
    ensures |Sources(buffer)| == |buffer|
  {
    if buffer != [] {
      var most, last := buffer[..|buffer| - 1], buffer[|buffer| - 1];
      DistinctCount(most);
      assert Sources(buffer) == Sources(most) + {last.i};
    }
  }

  lemma {:induction false} Pigeonhole(xs: set<nat>, n: nat)
    requires forall x | x in xs :: x < n
    ensures |xs| <= n
  {
    if n > 0 {
      Pigeonhole(xs - {n - 1}, n - 1);
    } else {
      assert xs == {};
    }
  }

  /** An answer, however late, always finds room in its own pass's channel: no goroutine is left waiting. */
  lemma AlwaysRoom(s: State, t: Task)
    requires Reachable(s) && t in s.tasks && t.answer.Some?
    ensures Room(s, t.pass)
  {
    ReachableInv(s);
    var p := s.passes[t.pass];
    assert OneEach(s, t.pass) && Accounted(s, t.pass);
    DistinctCount(p.buffer);
    assert t.i !in Sources(p.buffer) by {
      assert !Buffered(p, t.i);
    }
    Pigeonhole(Sources(p.buffer) + {t.i}, s.n);
  }

  lemma OverStays(s: State, e: Event, k: nat)
    requires k < |s.passes| && s.passes[k].over
    ensures k < |Step(s, e).passes| && Step(s, e).passes[k].over && Step(s, e).passes[k].results == s.passes[k].results
  {
  }

  /** Whatever happens next, the results of a pass that is over stay as they are: an answer that comes late is dropped. */
  lemma {:induction false} LateAnswersChangeNothing(n: nat, events: seq<Event>, later: nat, k: nat)
    requires later <= |events| && k < |Exec(n, events[..later]).passes| && Exec(n, events[..later]).passes[k].over
    ensures k < |Exec(n, events).passes| && Exec(n, events).passes[k].over
    ensures Exec(n, events).passes[k].results == Exec(n, events[..later]).passes[k].results
  {
    if later == |events| {
      assert events[..later] == events;
    } else {
      var most := events[..|events| - 1];
      assert most[..later] == events[..later];
      LateAnswersChangeNothing(n, most, later, k);
      OverStays(Exec(n, most), events[|events| - 1], k);
    }
  }

  /** Whether the fetch that pass `k` started of source `i` sent `res`. */
  ghost predicate SentBy(events: seq<Event>, k: nat, i: nat, res: Res) {
    Sends(Task(k, i, Some(res))) in events
  }

  /** What is in a pass's channel and what it has received its own fetches sent. */
  ghost predicate Own(p: Pass, events: seq<Event>, k: nat) {
    && (forall a | 0 <= a < |p.buffer| :: SentBy(events, k, p.buffer[a].i, p.buffer[a].res))
    && (forall i | i in p.results && p.results[i].Answered? :: SentBy(events, k, i, p.results[i].res))
  }

  lemma OwnGrows(p: Pass, events: seq<Event>, e: Event, k: nat)
    requires Own(p, events, k)
    ensures Own(p, events + [e], k)
  {
  }

  lemma StepOwn(s: State, events: seq<Event>, e: Event, k: nat)
    requires forall j | 0 <= j < |s.passes| :: Own(s.passes[j], events, j)
    requires k < |Step(s, e).passes|
    ensures Own(Step(s, e).passes[k], events + [e], k)
  {
    if k < |s.passes| {
      OwnGrows(s.passes[k], events, e, k);
    }
    assert e in events + [e];
  }

  /** Every answer a pass counts was sent by the fetch that this pass started: none reaches another pass. */
  lemma {:induction false} AnswersAreItsOwn(n: nat, events: seq<Event>, k: nat)
    requires k < |Exec(n, events).passes|
    ensures Own(Exec(n, events).passes[k], events, k)
  {
    if events != [] {
      var most, last := events[..|events| - 1], events[|events| - 1];
      assert events == most + [last];
      forall j | 0 <= j < |Exec(n, most).passes| ensures Own(Exec(n, most).passes[j], most, j) {
        AnswersAreItsOwn(n, most, j);
      }
      StepOwn(Exec(n, most), most, last, k);
    }
  }

  /** Receives whatever is in the channel of the pass under way. */
  function Drained(s: State): State
    decreases if s.passes == [] then 0 else |s.passes[|s.passes| - 1].buffer|
  {
    if OnReceives(s) == s || s.passes == [] || s.passes[|s.passes| - 1].buffer == [] then s else Drained(OnReceives(s))
  }

  ghost predicate OnceEach(buffer: seq<Answer>) {
    forall a, b | 0 <= a < b < |buffer| :: buffer[a].i != buffer[b].i
  }

  /** What a deadline makes of a pass: what was answered, in time or with it, counts, and the rest timed out. */
  ghost predicate ClosedBy(before: Pass, after: Pass) {
    && after.over
    && (forall k | 0 <= k < |before.buffer| ::
          before.buffer[k].i in after.results && after.results[before.buffer[k].i] == Answered(before.buffer[k].res))
    && (forall i | i in before.pending && !Buffered(before, i) :: i in after.results && after.results[i] == TimedOut)
    && (forall i | i in before.results && i !in before.pending && !Buffered(before, i) ::
          i in after.results && after.results[i] == before.results[i])
  }

  lemma ReceivingFirst(p: Pass, q: Pass, after: Pass)
    requires p.buffer != [] && OnceEach(p.buffer)
    requires var a := p.buffer[0];
      q == p.(pending := p.pending - {a.i}, results := p.results[a.i := Answered(a.res)], buffer := p.buffer[1..])
    requires ClosedBy(q, after)
    ensures ClosedBy(p, after)
  {
    assert forall k | 0 < k < |p.buffer| :: q.buffer[k - 1] == p.buffer[k];
    forall i: nat ensures Buffered(q, i) <==> Buffered(p, i) && i != p.buffer[0].i {
      if Buffered(p, i) && i != p.buffer[0].i {
        var k :| 0 <= k < |p.buffer| && p.buffer[k].i == i;
        assert q.buffer[k - 1].i == i;
      }
      if Buffered(q, i) {
        var k :| 0 <= k < |q.buffer| && q.buffer[k].i == i;
        assert p.buffer[k + 1].i == i;
      }
    }
  }

  lemma {:induction false} DrainedThenClosed(s: State)
    requires s.passes != [] && s.passes[|s.passes| - 1].next >= s.n && !s.passes[|s.passes| - 1].over
    requires OnceEach(s.passes[|s.passes| - 1].buffer)
    ensures |OnExpires(Drained(s)).passes| == |s.passes|
    ensures ClosedBy(s.passes[|s.passes| - 1], OnExpires(Drained(s)).passes[|s.passes| - 1])
    decreases |s.passes[|s.passes| - 1].buffer|
  {
    hide ClosedBy;
    var p := s.passes[|s.passes| - 1];
    if p.buffer != [] {
      var q := OnReceives(s).passes[|s.passes| - 1];
      assert q.buffer == p.buffer[1..];
      assert OnReceives(s) != s;
      DrainedThenClosed(OnReceives(s));
      ReceivingFirst(p, q, OnExpires(Drained(s)).passes[|s.passes| - 1]);
    } else {
      ClosedAtOnce(s);
    }
  }

  lemma ClosedAtOnce(s: State)
    requires s.passes != [] && s.passes[|s.passes| - 1].next >= s.n && !s.passes[|s.passes| - 1].over
    requires s.passes[|s.passes| - 1].buffer == []
    ensures ClosedBy(s.passes[|s.passes| - 1], OnExpires(Drained(s)).passes[|s.passes| - 1])
  {
  }

  /**
   * So when the deadline strikes a pass that has launched every source it is over: every answer that
   * arrived with the deadline counts, and only a source that sent none has timed out.
   */
  lemma TheDeadlineEndsIt(s: State)
    requires Reachable(s)
    requires s.passes != [] && s.passes[|s.passes| - 1].next >= s.n && !s.passes[|s.passes| - 1].over
    ensures |OnExpires(Drained(s)).passes| == |s.passes|
    ensures ClosedBy(s.passes[|s.passes| - 1], OnExpires(Drained(s)).passes[|s.passes| - 1])
  {
    ReachableInv(s);
    assert OneEach(s, |s.passes| - 1);
    DrainedThenClosed(s);
  }

  /** The deadline of pass `k` struck at the `l`th event, with source `i` awaited and no answer of it there. */
  ghost predicate FoundSilent(n: nat, events: seq<Event>, l: nat, k: nat, i: nat) {
    && l < |events| && events[l].Expires?
    && var s := Exec(n, events[..l]);
       |s.passes| == k + 1 && !s.passes[k].over && i in s.passes[k].pending && !Buffered(s.passes[k], i)
  }

  lemma TimedOutFrom(s: State, e: Event, k: nat, i: nat)
    requires k < |Step(s, e).passes|
    requires i in Step(s, e).passes[k].results && Step(s, e).passes[k].results[i] == TimedOut
    ensures (k < |s.passes| && i in s.passes[k].results && s.passes[k].results[i] == TimedOut)
            || (e.Expires? && |s.passes| == k + 1 && !s.passes[k].over && i in s.passes[k].pending && !Buffered(s.passes[k], i))
  {
  }

  /** Over every run: a source has timed out of a pass only where the deadline struck and none of its answers was there. */
  lemma {:induction false} TimedOutSentNone(n: nat, events: seq<Event>, k: nat, i: nat) returns (l: nat)
    requires k < |Exec(n, events).passes|
    requires i in Exec(n, events).passes[k].results && Exec(n, events).passes[k].results[i] == TimedOut
    ensures FoundSilent(n, events, l, k, i)
  {
    hide Step;
    var most, last := events[..|events| - 1], events[|events| - 1];
    var s := Exec(n, most);
    TimedOutFrom(s, last, k, i);
    if k < |s.passes| && i in s.passes[k].results && s.passes[k].results[i] == TimedOut {
      l := TimedOutSentNone(n, most, k, i);
      assert most[..l] == events[..l];
    } else {
      l := |most|;
    }
  }

  // ---- Passes go on ----

  lemma StepReachable(s: State, e: Event)
    requires Reachable(s)
    ensures Reachable(Step(s, e)) && Step(s, e).n == s.n
  {
    var events :| s == Exec(s.n, events);
    assert (events + [e])[..|events|] == events;
    assert Exec(s.n, events + [e]) == Step(s, e);
  }

  /** The launch loop has come to source `m`, none being held back. */
  function Launched(s: State, m: nat): State {
    if m == 0 then s else OnLaunches(Launched(s, m - 1), false)
  }

  lemma LaunchesOne(s: State)
    requires s.passes != [] && s.passes[|s.passes| - 1].next < s.n && !s.passes[|s.passes| - 1].over
    ensures var k, u := |s.passes| - 1, OnLaunches(s, false);
      |u.passes| == |s.passes| && u.passes[k].next == s.passes[k].next + 1 && !u.passes[k].over
  {
  }

  lemma {:induction false} LaunchesAll(s: State, m: nat)
    requires Reachable(s) && s.passes != [] && m <= s.n
    requires s.passes[|s.passes| - 1].next == 0 && !s.passes[|s.passes| - 1].over
    ensures var u := Launched(s, m);
      && Reachable(u) && u.n == s.n && |u.passes| == |s.passes|
      && u.passes[|s.passes| - 1].next == m && !u.passes[|s.passes| - 1].over
  {
    hide Reachable, OnLaunches;
    if m > 0 {
      LaunchesAll(s, m - 1);
      LaunchesOne(Launched(s, m - 1));
      StepReachable(Launched(s, m - 1), Launches(false));
    }
  }

  /** However a pass ended, the next one can begin, and ends in its turn with whatever the sources send. */
  lemma PassesGoOn(s: State)
    requires Reachable(s) && (s.passes == [] || s.passes[|s.passes| - 1].over)
    ensures var u := OnExpires(Drained(Launched(OnBegins(s), s.n)));
      |u.passes| == |s.passes| + 1 && u.passes[|s.passes|].over
  {
    StepReachable(s, Begins);
    LaunchesAll(OnBegins(s), s.n);
    TheDeadlineEndsIt(Launched(OnBegins(s), s.n));
  }

  // ---- The collecting loop itself ----

  ghost predicate Sent(arrived: seq<Answer>, i: nat) {
    exists k | 0 <= k < |arrived| :: arrived[k].i == i
  }

  ghost predicate Fits(arrived: seq<Answer>, pending: set<nat>, n: nat) {
    && (forall i | i in pending :: i < n)
    && (forall k | 0 <= k < |arrived| :: arrived[k].i in pending)
    && (forall a, b | 0 <= a < b < |arrived| :: arrived[a].i != arrived[b].i)
  }

  /** The results once the first `k` answers are received. */
  ghost function Received(results: seq<Result>, arrived: seq<Answer>, k: nat): (after: seq<Result>)
    requires k <= |arrived| && forall a | 0 <= a < |arrived| :: arrived[a].i < |results|
    ensures |after| == |results|
  {
    if k == 0 then results else Received(results, arrived, k - 1)[arrived[k - 1].i := Answered(arrived[k - 1].res)]
  }

  ghost function Left(pending: set<nat>, arrived: seq<Answer>, k: nat): set<nat>
    requires k <= |arrived|
  {
    if k == 0 then pending else Left(pending, arrived, k - 1) - {arrived[k - 1].i}
  }

  lemma {:induction false} ReceivedAt(results: seq<Result>, pending: set<nat>, arrived: seq<Answer>, k: nat)
    requires Fits(arrived, pending, |results|) && k <= |arrived|
    ensures forall a | 0 <= a < k :: Received(results, arrived, k)[arrived[a].i] == Answered(arrived[a].res)
    ensures forall i | 0 <= i < |results| && !Sent(arrived, i) :: Received(results, arrived, k)[i] == results[i]
    ensures forall i | 0 <= i < |results| && Sent(arrived, i) ::
              i in Left(pending, arrived, k) <==> exists a | k <= a < |arrived| :: arrived[a].i == i
    ensures forall i | 0 <= i < |results| && !Sent(arrived, i) :: i in Left(pending, arrived, k) <==> i in pending
  {
    if k > 0 {
      ReceivedAt(results, pending, arrived, k - 1);
      assert Sent(arrived, arrived[k - 1].i);
    }
  }

  lemma NobodyLeft(results: seq<Result>, pending: set<nat>, arrived: seq<Answer>, k: nat)
    requires Fits(arrived, pending, |results|) && k <= |arrived| && Left(pending, arrived, k) == {}
    ensures k == |arrived| && forall i | i in pending :: Sent(arrived, i)
  {
    ReceivedAt(results, pending, arrived, k);
    if k < |arrived| {
      assert Sent(arrived, arrived[k].i);
    }
  }

  /** What the pass has of each source: its answer, or no answer in time; a source not asked keeps what it had. */
  ghost predicate Collected(before: seq<Result>, after: seq<Result>, pending: set<nat>, arrived: seq<Answer>) {
    && |after| == |before|
    && (forall k | 0 <= k < |arrived| :: arrived[k].i < |after| && after[arrived[k].i] == Answered(arrived[k].res))
    && (forall i | 0 <= i < |after| && !Sent(arrived, i) :: after[i] == if i in pending then TimedOut else before[i])
  }

  /** The sources still pending get an unreachable result. */
  method TimeOut(results: array<Result>, pending: set<nat>)
    requires forall i | i in pending :: i < results.Length
    modifies results
    ensures forall i | 0 <= i < results.Length :: results[i] == if i in pending then TimedOut else old(results[i])
  {
    var left := pending;
    while left != {}
      invariant left <= pending
      invariant forall i | 0 <= i < results.Length :: results[i] == if i in pending && i !in left then TimedOut else old(results[i])
      decreases |left|
    {
      var i :| i in left;
      results[i] := TimedOut;
      left := left - {i};
    }
  }

  /**
   * collectAnswers. `arrived` is what gets into the channel by the deadline, which is noticed after
   * `noticed` of them: the rest are then drained, so it does not matter when that is.
   */
  method CollectAnswers(results: array<Result>, pending: set<nat>, arrived: seq<Answer>, noticed: nat)
    requires Fits(arrived, pending, results.Length)
    modifies results
    ensures Collected(old(results[..]), results[..], pending, arrived)
  {
    ghost var was := results[..];
    var left, k := pending, 0;
    while left != {} && k < |arrived| && k < noticed
      invariant k <= |arrived|
      invariant left == Left(pending, arrived, k) && results[..] == Received(was, arrived, k)
    {
      results[arrived[k].i] := Answered(arrived[k].res);
      left := left - {arrived[k].i};
      k := k + 1;
    }
    ReceivedAt(was, pending, arrived, k);
    if left == {} {
      NobodyLeft(was, pending, arrived, k);
      return;
    }
    while k < |arrived|
      invariant k <= |arrived|
      invariant left == Left(pending, arrived, k) && results[..] == Received(was, arrived, k)
    {
      results[arrived[k].i] := Answered(arrived[k].res);
      left := left - {arrived[k].i};
      k := k + 1;
    }
    ReceivedAt(was, pending, arrived, k);
    LeftArePending(pending, arrived, k);
    TimeOut(results, left);
  }

  lemma {:induction false} LeftArePending(pending: set<nat>, arrived: seq<Answer>, k: nat)
    requires k <= |arrived|
    ensures Left(pending, arrived, k) <= pending
    ensures forall a | 0 <= a < k :: arrived[a].i !in Left(pending, arrived, k)
  {
    if k > 0 {
      LeftArePending(pending, arrived, k - 1);
    }
  }
}
