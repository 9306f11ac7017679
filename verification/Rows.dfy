/** The rows a snapshot lists, and the two ways the code picks among them and orders them. */
module Rows {
  import opened Prelude
  import opened Seqs

  type Forge = string

  datatype RepoKey = RepoKey(forge: Forge, repo: string)

  datatype Id = Id(home: RepoKey, number: int)

  /**
   * A pull request or an issue. `box` is Renovate's rebase box, `body` stands for everything a merge
   * only carries along. `stamp` is history: the number of the fetch that read the row.
   */
  datatype Row = Row(id: Id, updatedAt: int, box: bool, body: string, stamp: nat)

  /** A repository's own row. `stale` says its rows are older than the last answer. */
  datatype RepoRow = RepoRow(home: RepoKey, stale: bool, stamp: nat)

  datatype Snapshot = Snapshot(prs: seq<Row>, issues: seq<Row>, repos: seq<RepoRow>)

  const EMPTY := Snapshot([], [], [])

  function Of(k: RepoKey): Row -> bool {
    (r: Row) => r.id.home == k
  }

  function NotOf(k: RepoKey): Row -> bool {
    (r: Row) => r.id.home != k
  }

  function InRepos(ks: set<RepoKey>): Row -> bool {
    (r: Row) => r.id.home in ks
  }

  function NotInRepos(ks: set<RepoKey>): Row -> bool {
    (r: Row) => r.id.home !in ks
  }

  function NotIn(ids: set<Id>): Row -> bool {
    (r: Row) => r.id !in ids
  }

  function HasId(id: Id): Row -> bool {
    (r: Row) => r.id == id
  }

  /** The rows of one repository. */
  function At(rows: seq<Row>, k: RepoKey): seq<Row> {
    Filter(rows, Of(k))
  }

  function Listed(rows: seq<Row>): set<Id> {
    set r | r in rows :: r.id
  }

  predicate AllOf(rows: seq<Row>, k: RepoKey) {
    forall r | r in rows :: r.id.home == k
  }

  /** What a fetch read, marked with the fetch's number. */
  function Stamp(n: nat): Row -> Row {
    (r: Row) => r.(stamp := n)
  }

  predicate AllStamped(rows: seq<Row>, n: nat) {
    forall r | r in rows :: r.stamp == n
  }

  // Ordering

  predicate NewestFirst(rows: seq<Row>) {
    forall i, j | 0 <= i < j < |rows| :: rows[i].updatedAt >= rows[j].updatedAt
  }

  function Insert(x: Row, rows: seq<Row>): (sorted: seq<Row>)
    ensures |sorted| == |rows| + 1
  {
    if rows == [] || x.updatedAt >= rows[0].updatedAt then [x] + rows else [rows[0]] + Insert(x, rows[1..])
  }

  lemma {:induction false} InsertAdds(x: Row, rows: seq<Row>)
    ensures multiset(Insert(x, rows)) == multiset(rows + [x])
  {
    if rows == [] || x.updatedAt >= rows[0].updatedAt {
      assert multiset([x] + rows) == multiset(rows + [x]);
    } else {
      InsertAdds(x, rows[1..]);
      assert rows + [x] == [rows[0]] + (rows[1..] + [x]);
    }
  }

  lemma {:induction false} InsertSorts(x: Row, rows: seq<Row>)
    requires NewestFirst(rows)
    ensures NewestFirst(Insert(x, rows))
    ensures forall y | y in Insert(x, rows) :: y == x || y in rows
  {
    if rows != [] && x.updatedAt < rows[0].updatedAt {
      var rest := Insert(x, rows[1..]);
      InsertSorts(x, rows[1..]);
      forall y | y in rest ensures y.updatedAt <= rows[0].updatedAt {
        if y != x {
          var m :| 0 <= m < |rows[1..]| && rows[1..][m] == y;
          assert rows[m + 1] == y;
        }
      }
      assert forall j | 0 <= j < |rest| :: rest[j] in rest;
      assert Insert(x, rows) == [rows[0]] + rest;
    } else {
      assert Insert(x, rows) == [x] + rows;
    }
  }

  /** Newest first. Rows of the same instant may come out in either order; nothing below depends on it. */
  function SortByRecency(rows: seq<Row>): (sorted: seq<Row>)
    ensures NewestFirst(sorted)
    ensures Same(sorted, rows)
  {
    if rows == [] then []
    else
      var most := SortByRecency(rows[..|rows| - 1]);
      var last := rows[|rows| - 1];
      InsertSorts(last, most);
      InsertAdds(last, most);
      SplitLast(rows);
      assert multiset(most + [last]) == multiset(most) + multiset{last};
      Insert(last, most)
  }

  lemma SortHas(rows: seq<Row>)
    ensures forall r :: r in SortByRecency(rows) <==> r in rows
  {
    forall r ensures r in SortByRecency(rows) <==> r in rows {
      assert r in SortByRecency(rows) <==> r in multiset(SortByRecency(rows));
      assert r in rows <==> r in multiset(rows);
    }
  }

  lemma SortAt(rows: seq<Row>, k: RepoKey)
    ensures Same(At(SortByRecency(rows), k), At(rows, k))
  {
    FilterSame(SortByRecency(rows), rows, Of(k));
  }

  /** Two lists whose repositories agree one by one agree as a whole. */
  lemma SameEverywhere(xs: seq<Row>, ys: seq<Row>)
    requires forall k :: Same(At(xs, k), At(ys, k))
    ensures Same(xs, ys)
  {
    forall x: Row ensures multiset(xs)[x] == multiset(ys)[x] {
      FilterCount(xs, Of(x.id.home), x);
      FilterCount(ys, Of(x.id.home), x);
      assert Same(At(xs, x.id.home), At(ys, x.id.home));
    }
  }

  function Count(rows: seq<Row>, id: Id): nat {
    |Filter(rows, HasId(id))|
  }

  /** Each pull request is listed once. */
  ghost predicate Distinct(rows: seq<Row>) {
    forall id :: Count(rows, id) <= 1
  }
}
