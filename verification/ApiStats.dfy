/** The API counters: bounded rows that lose no call.

    A new key that finds the table full is counted on the row its forge,
    credential and kind share for every other repository. */
module ApiStats {

  const MAX_BUCKETS := 2000
  const OVERFLOW_REPO := "other"

  /** What a call is counted under whatever its repository. */
  datatype Group = Group(forge: string, credential: string, kind: string)

  datatype Key = Key(group: Group, repo: string)

  datatype Count = Count(rest: int, graphql: int, graphqlCost: int, notModified: int)

  const ZERO := Count(0, 0, 0, 0)

  function Plus(a: Count, b: Count): Count {
    Count(a.rest + b.rest, a.graphql + b.graphql, a.graphqlCost + b.graphqlCost, a.notModified + b.notModified)
  }

  type Rows = map<Key, Count>

  /** The row a call under `key` is added to: its own, or past the cap the overflow row of its group. */
  function RowFor(rows: Rows, key: Key): Key {
    if key in rows || |rows| < MAX_BUCKETS then key else Key(key.group, OVERFLOW_REPO)
  }

  function Added(rows: Rows, key: Key, n: Count): Rows {
    var row := RowFor(rows, key);
    rows[row := Plus(if row in rows then rows[row] else ZERO, n)]
  }

  class Counters {
    var m: Rows

    constructor ()
      ensures m == map[]
    {
      m := map[];
    }

    method Add(key: Key, n: Count)
      modifies this
      ensures m == Added(old(m), key, n)
    {
      var row := key;
      if row !in m && |m| >= MAX_BUCKETS {
        row := Key(key.group, OVERFLOW_REPO);
      }
      if row !in m {
        m := m[row := ZERO];
      }
      m := m[row := Plus(m[row], n)];
    }
  }

  // ---- Over every sequence of calls ----

  datatype Call = Call(key: Key, n: Count)

  function After(calls: seq<Call>): Rows {
    if calls == [] then map[]
    else
      var last := calls[|calls| - 1];
      Added(After(calls[..|calls| - 1]), last.key, last.n)
  }

  /** What the calls of a group, or under one key, add up to. */
  function SpentBy(calls: seq<Call>, g: Group): Count {
    if calls == [] then ZERO
    else
      var most, last := SpentBy(calls[..|calls| - 1], g), calls[|calls| - 1];
      if last.key.group == g then Plus(most, last.n) else most
  }

  function SpentUnder(calls: seq<Call>, k: Key): Count {
    if calls == [] then ZERO
    else
      var most, last := SpentUnder(calls[..|calls| - 1], k), calls[|calls| - 1];
      if last.key == k then Plus(most, last.n) else most
  }

  /** What one row adds to the sum of group `g`. */
  function Part(rows: Rows, k: Key, g: Group): Count
    requires k in rows
  {
    if k.group == g then rows[k] else ZERO
  }

  /** The sum of a group's rows. */
  ghost function Total(rows: Rows, g: Group): Count
    decreases |rows|
  {
    if rows == map[] then ZERO
    else
      var k :| k in rows;
      LessOne(rows, k);
      Plus(Total(rows - {k}, g), Part(rows, k, g))
  }

  lemma LessOne(rows: Rows, k: Key)
    requires k in rows
    ensures |rows - {k}| == |rows| - 1
  {
    assert (rows - {k}).Keys == rows.Keys - {k};
    assert |rows| == |rows.Keys| && |rows - {k}| == |(rows - {k}).Keys|;
  }

  lemma PlusSwaps(a: Count, b: Count, c: Count)
    ensures Plus(Plus(a, b), c) == Plus(Plus(a, c), b)
  {
  }

  lemma TakenFirst(rows: Rows, g: Group) returns (j: Key)
    requires rows != map[]
    ensures j in rows && Total(rows, g) == Plus(Total(rows - {j}, g), Part(rows, j, g))
  {
    j :| j in rows && Total(rows, g) == Plus(Total(rows - {j}, g), Part(rows, j, g));
  }

  /** Any row may be taken out of the sum first. */
  lemma {:induction false} TakeRow(rows: Rows, g: Group, k: Key)
    requires k in rows
    ensures Total(rows, g) == Plus(Total(rows - {k}, g), Part(rows, k, g))
    decreases |rows|
  {
    hide Total, Plus;
    var j := TakenFirst(rows, g);
    if j != k {
      LessOne(rows, j);
      LessOne(rows, k);
      TakeRow(rows - {j}, g, k);
      TakeRow(rows - {k}, g, j);
      assert rows - {j} - {k} == rows - {k} - {j};
      PlusSwaps(Total(rows - {j} - {k}, g), Part(rows, k, g), Part(rows, j, g));
    }
  }

  lemma AddsToTotal(rows: Rows, key: Key, n: Count, g: Group)
    ensures Total(Added(rows, key, n), g) == if key.group == g then Plus(Total(rows, g), n) else Total(rows, g)
  {
    hide Total;
    var row := RowFor(rows, key);
    var after := Added(rows, key, n);
    TakeRow(after, g, row);
    assert after - {row} == rows - {row};
    if row in rows {
      TakeRow(rows, g, row);
    } else {
      assert rows - {row} == rows;
    }
  }

  /** No call is lost: a group's rows add up to exactly what its calls spent, however many were folded away. */
  lemma {:induction false} NothingIsLost(calls: seq<Call>, g: Group)
    ensures Total(After(calls), g) == SpentBy(calls, g)
  {
    if calls != [] {
      var most, last := calls[..|calls| - 1], calls[|calls| - 1];
      NothingIsLost(most, g);
      AddsToTotal(After(most), last.key, last.n, g);
    }
  }

  /** A repository with a row of its own has an exact count; one without spent nothing, or came past the cap. */
  lemma {:induction false} OwnRowsAreExact(calls: seq<Call>, k: Key)
    requires k.repo != OVERFLOW_REPO
    ensures k in After(calls) ==> After(calls)[k] == SpentUnder(calls, k)
    ensures k !in After(calls) ==> SpentUnder(calls, k) == ZERO || |After(calls)| >= MAX_BUCKETS
  {
    if calls != [] {
      var most, last := calls[..|calls| - 1], calls[|calls| - 1];
      OwnRowsAreExact(most, k);
      Grows(After(most), last.key, last.n);
      var row := RowFor(After(most), last.key);
      assert k in After(calls) <==> k in After(most) || k == row;
    }
  }

  lemma Grows(rows: Rows, key: Key, n: Count)
    ensures |Added(rows, key, n)| == |rows| + (if RowFor(rows, key) in rows then 0 else 1)
  {
    var row := RowFor(rows, key);
    assert Added(rows, key, n).Keys == rows.Keys + {row};
    assert |Added(rows, key, n)| == |Added(rows, key, n).Keys| && |rows| == |rows.Keys|;
  }

  function Groups(calls: seq<Call>): set<Group> {
    set i | 0 <= i < |calls| :: calls[i].key.group
  }

  function Overflows(rows: Rows): set<Group> {
    set k | k in rows && k.repo == OVERFLOW_REPO :: k.group
  }

  lemma Subset(a: set<Group>, b: set<Group>)
    requires a <= b
    ensures |a| <= |b|
  {
    assert b == a + (b - a);
  }

  lemma OverflowsNext(rows: Rows, key: Key, n: Count)
    ensures Overflows(Added(rows, key, n))
            == Overflows(rows) + (if RowFor(rows, key).repo == OVERFLOW_REPO then {key.group} else {})
  {
    var after := Added(rows, key, n);
    forall g ensures g in Overflows(after) <==> g in Overflows(rows) || (RowFor(rows, key).repo == OVERFLOW_REPO && g == key.group) {
      assert g in Overflows(after) <==> Key(g, OVERFLOW_REPO) in after;
      assert g in Overflows(rows) <==> Key(g, OVERFLOW_REPO) in rows;
    }
  }

  lemma GroupsNext(calls: seq<Call>)
    requires calls != []
    ensures Groups(calls) == Groups(calls[..|calls| - 1]) + {calls[|calls| - 1].key.group}
  {
    var most := calls[..|calls| - 1];
    assert forall i | 0 <= i < |most| :: most[i] == calls[i];
    assert calls[|calls| - 1].key.group in Groups(calls);
  }

  lemma {:induction false} CappedByOverflows(calls: seq<Call>)
    ensures |After(calls)| <= MAX_BUCKETS + |Overflows(After(calls))|
    ensures Overflows(After(calls)) <= Groups(calls)
  {
    if calls != [] {
      var most, last := calls[..|calls| - 1], calls[|calls| - 1];
      var rows := After(most);
      CappedByOverflows(most);
      Grows(rows, last.key, last.n);
      OverflowsNext(rows, last.key, last.n);
      GroupsNext(calls);
      var row := RowFor(rows, last.key);
      if row !in rows && |rows| >= MAX_BUCKETS {
        assert last.key.group !in Overflows(rows);
      } else {
        Subset(Overflows(rows), Overflows(After(calls)));
      }
    }
  }

  /** The table never outgrows the cap by more than one row for each group seen. */
  lemma RowsAreBounded(calls: seq<Call>)
    ensures |After(calls)| <= MAX_BUCKETS + |Groups(calls)|
  {
    CappedByOverflows(calls);
    Subset(Overflows(After(calls)), Groups(calls));
  }
}
