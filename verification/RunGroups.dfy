/** Jobs grouped by run attempt, and the events that bring a page up to date with them. */
module RunGroups {
  import opened Prelude

  /** A job of a run attempt, or of no run when `runId` is zero. */
  datatype Check = Check(runId: int, attempt: int, url: string, name: string, facts: Option<int>, body: int)

  datatype Key = Run(id: int, attempt: int) | Job(url: string, name: string)

  datatype Group = Group(key: Key, checks: seq<Check>, run: Option<int>)

  function KeyOf(c: Check): Key {
    if c.runId > 0 then Run(c.runId, c.attempt) else Job(c.url, c.name)
  }

  /** The facts a job brings to its group: only a job of a run has any. */
  function FactsOf(c: Check): Option<int> {
    if c.runId > 0 then c.facts else None
  }

  // ---- What a grouping is ----

  /** The jobs of `checks` under `key`, in their order. */
  function Under(checks: seq<Check>, key: Key): seq<Check> {
    if checks == [] then []
    else
      var last := checks[|checks| - 1];
      Under(checks[..|checks| - 1], key) + (if KeyOf(last) == key then [last] else [])
  }

  /** The first facts any job brings. */
  function FirstFacts(checks: seq<Check>): Option<int> {
    if checks == [] then None
    else
      var before := FirstFacts(checks[..|checks| - 1]);
      if before.Some? then before else FactsOf(checks[|checks| - 1])
  }

  /** The keys of `checks`, each where it first appears. */
  function FirstSeen(checks: seq<Check>): seq<Key> {
    if checks == [] then []
    else
      var before, key := FirstSeen(checks[..|checks| - 1]), KeyOf(checks[|checks| - 1]);
      if key in before then before else before + [key]
  }

  ghost predicate Whole(checks: seq<Check>, g: Group) {
    g.checks == Under(checks, g.key) && g.run == FirstFacts(g.checks)
  }

  /** One group for each key in the order the keys appear, holding all its jobs. */
  ghost predicate Groups(checks: seq<Check>, groups: seq<Group>) {
    && Keys(groups) == FirstSeen(checks)
    && (forall i :: 0 <= i < |groups| ==> Whole(checks, groups[i]))
  }

  ghost predicate Distinct(groups: seq<Group>) {
    forall i, j :: 0 <= i < j < |groups| ==> groups[i].key != groups[j].key
  }

  function Keys(groups: seq<Group>): (keys: seq<Key>)
    ensures |keys| == |groups| && forall i :: 0 <= i < |groups| ==> keys[i] == groups[i].key
  {
    seq(|groups|, i requires 0 <= i < |groups| => groups[i].key)
  }

  lemma {:induction false} NoneUnder(checks: seq<Check>, key: Key)
    requires key !in FirstSeen(checks)
    ensures Under(checks, key) == []
  {
    if checks != [] {
      NoneUnder(checks[..|checks| - 1], key);
    }
  }

  ghost predicate AllDifferent(keys: seq<Key>) {
    forall i, j :: 0 <= i < j < |keys| ==> keys[i] != keys[j]
  }

  lemma {:induction false} EachKeyOnce(checks: seq<Check>)
    ensures AllDifferent(FirstSeen(checks))
  {
    if checks != [] {
      EachKeyOnce(checks[..|checks| - 1]);
    }
  }

  /** The groups of one job list have distinct keys. */
  lemma GroupsAreDistinct(checks: seq<Check>, groups: seq<Group>)
    requires Groups(checks, groups)
    ensures Distinct(groups)
  {
    EachKeyOnce(checks);
    assert AllDifferent(Keys(groups));
    forall i, j | 0 <= i < j < |groups| ensures groups[i].key != groups[j].key {
      assert Keys(groups)[i] != Keys(groups)[j];
    }
  }

  /** Jobs of one run attempt, or of no run and called the same. */
  predicate SameRun(c: Check, d: Check) {
    if c.runId > 0 || d.runId > 0 then c.runId == d.runId && c.attempt == d.attempt
    else c.url == d.url && c.name == d.name
  }

  lemma {:induction false} UnderHas(checks: seq<Check>, key: Key, c: Check)
    ensures c in Under(checks, key) <==> c in checks && KeyOf(c) == key
  {
    if checks != [] {
      UnderHas(checks[..|checks| - 1], key, c);
      assert checks == checks[..|checks| - 1] + [checks[|checks| - 1]];
    }
  }

  lemma {:induction false} Seen(checks: seq<Check>, c: Check)
    requires c in checks
    ensures KeyOf(c) in FirstSeen(checks)
  {
    if c in checks[..|checks| - 1] {
      Seen(checks[..|checks| - 1], c);
    }
  }

  /** Two jobs are in one group exactly when they are of one run attempt, or of no run and called the same. */
  lemma TogetherIff(checks: seq<Check>, groups: seq<Group>, c: Check, d: Check)
    requires Groups(checks, groups) && c in checks && d in checks
    ensures (exists g | g in groups :: c in g.checks && d in g.checks) <==> SameRun(c, d)
  {
    Seen(checks, c);
    var i :| 0 <= i < |groups| && Keys(groups)[i] == KeyOf(c);
    assert groups[i] in groups && Whole(checks, groups[i]);
    UnderHas(checks, KeyOf(c), c);
    UnderHas(checks, KeyOf(c), d);
    forall g | g in groups && c in g.checks && d in g.checks ensures KeyOf(c) == KeyOf(d) {
      var j :| 0 <= j < |groups| && groups[j] == g;
      assert Whole(checks, g);
      UnderHas(checks, g.key, c);
      UnderHas(checks, g.key, d);
    }
  }

  /** A run is described by the first of its jobs that says anything of it, and what is no run's by nothing. */
  lemma {:induction false} DescribedBy(checks: seq<Check>)
    ensures var run := FirstFacts(checks);
      if run.None? then forall j | 0 <= j < |checks| :: checks[j].runId <= 0 || checks[j].facts.None?
      else exists i | 0 <= i < |checks| :: checks[i].runId > 0 && checks[i].facts == run
             && forall j | 0 <= j < i :: checks[j].runId <= 0 || checks[j].facts.None?
  {
    if checks != [] {
      DescribedBy(checks[..|checks| - 1]);
    }
  }

  /** Putting one more job in its group regroups the longer list. */
  lemma OneMoreJob(checks: seq<Check>, c: Check, before: seq<Group>, i: nat, after: seq<Group>)
    requires Groups(checks, before)
    requires i <= |before| && |after| == if i < |before| then |before| else |before| + 1
    requires i < |before| ==> before[i].key == KeyOf(c)
    requires i == |before| ==> KeyOf(c) !in Keys(before)
    requires forall j :: 0 <= j < |after| && j != i ==> after[j] == before[j]
    requires var g := if i < |before| then before[i] else Group(KeyOf(c), [], None);
      after[i] == Group(g.key, g.checks + [c], if g.run.Some? then g.run else FactsOf(c))
    ensures Groups(checks + [c], after)
  {
    assert (checks + [c])[..|checks|] == checks;
    GroupsAreDistinct(checks, before);
    if i == |before| {
      NoneUnder(checks, KeyOf(c));
      assert Keys(after) == Keys(before) + [KeyOf(c)];
    } else {
      assert Keys(before)[i] == KeyOf(c);
      assert Keys(after) == Keys(before);
      assert Whole(checks, before[i]);
    }
    forall j | 0 <= j < |after| ensures Whole(checks + [c], after[j]) {
      if j != i {
        assert Whole(checks, before[j]);
        assert after[j].key != KeyOf(c);
      } else {
        assert after[i].checks[..|after[i].checks| - 1] == Under(checks, KeyOf(c));
      }
    }
  }

  /** `at` says where each key's group is. */
  ghost predicate IndexOf(at: map<Key, nat>, groups: seq<Group>) {
    && (forall key :: key in at ==> at[key] < |groups| && groups[at[key]].key == key)
    && (forall i :: 0 <= i < |groups| ==> groups[i].key in at)
  }

  /** One round of GroupRuns: the job goes in its group, made if need be. */
  method PutJob(c: Check, at: map<Key, nat>, groups: seq<Group>, ghost checks: seq<Check>)
    returns (at': map<Key, nat>, groups': seq<Group>)
    requires Groups(checks, groups) && IndexOf(at, groups)
    ensures Groups(checks + [c], groups') && IndexOf(at', groups')
  {
    hide Groups;
    at', groups' := at, groups;
    var key := KeyOf(c);
    if key !in at {
      at' := at[key := |groups|];
      groups' := groups + [Group(key, [], None)];
    }
    var i := at'[key];
    var g := groups'[i];
    g := g.(checks := g.checks + [c]);
    if g.run.None? && c.runId > 0 {
      g := g.(run := c.facts);
    }
    groups' := groups'[i := g];
    OneMoreJob(checks, c, groups, i, groups');
  }

  method GroupRuns(checks: seq<Check>) returns (groups: seq<Group>)
    ensures Groups(checks, groups)
    ensures Distinct(groups)
  {
    groups := [];
    var at: map<Key, nat> := map[];
    for n := 0 to |checks|
      invariant Groups(checks[..n], groups) && IndexOf(at, groups)
    {
      at, groups := PutJob(checks[n], at, groups, checks[..n]);
      assert checks[..n + 1] == checks[..n] + [checks[n]];
    }
    assert checks[..|checks|] == checks;
    GroupsAreDistinct(checks, groups);
  }
}
