module Ordering {
  lemma NonEmptyHasElement(s: set<int>)
    requires s != {}
    ensures exists y :: y in s
  {
    if forall y :: y !in s {
      assert false;
    }
  }

  /** A largest element of a non-empty set, found by removing an arbitrary element. */
  ghost function MaxOf(s: set<int>): (m: int)
    requires s != {}
    ensures m in s && forall x :: x in s ==> x <= m
    decreases |s|
  {
    NonEmptyHasElement(s);
    var y :| y in s;
    if s == {y} then y
    else
      var m' := MaxOf(s - {y});
      assert forall x :: x in s ==> x == y || x in s - {y};
      if y > m' then y else m'
  }

  /** The largest id of a non-empty set. */
  function Max(s: set<int>): (m: int)
    requires s != {}
    ensures m in s && forall x :: x in s ==> x <= m
  {
    var w := MaxOf(s);
    var m :| m in s && forall x :: x in s ==> x <= m;
    m
  }

  /** The ids of a set, largest first (`ORDER BY id DESC`). */
  function SortedDesc(s: set<int>): (r: seq<int>)
    ensures |r| == |s|
    ensures forall x :: x in r <==> x in s
    ensures forall i, j :: 0 <= i < j < |r| ==> r[i] > r[j]
    decreases |s|
  {
    if s == {} then []
    else
      var m := Max(s);
      var rest := SortedDesc(s - {m});
      ConsDescending(m, rest, s - {m});
      assert forall x :: x in s <==> x == m || x in s - {m};
      [m] + rest
  }

  /** Putting an id above every element in front of a descending list keeps it descending. */
  lemma ConsDescending(m: int, rest: seq<int>, s: set<int>)
    requires forall x :: x in rest <==> x in s
    requires forall x :: x in s ==> x < m
    requires forall i, j :: 0 <= i < j < |rest| ==> rest[i] > rest[j]
    ensures forall i, j :: 0 <= i < j < |[m] + rest| ==> ([m] + rest)[i] > ([m] + rest)[j]
  {
    var r := [m] + rest;
    forall i, j | 0 <= i < j < |r| ensures r[i] > r[j] {
      assert r[j] == rest[j - 1] && rest[j - 1] in s;
      if i > 0 {
        assert r[i] == rest[i - 1];
      }
    }
  }
}

/**
 * The list query of `GET /tasks` and `GET /tasks/mine`: keep the tasks that match the
 * owner scope and the status filter, order them by id descending, and cut out the page
 * at offset `(page - 1) * limit` of at most `limit` rows. `total` counts the filtered set.
 */
module Listing {
  import opened Ordering
  import opened Wrappers
  import opened Status
  import opened Models
  import opened Schemas
  import opened Http

  /** The WHERE clause: `user_id == owner` when scoped, `status == filter` when filtered. */
  predicate Matches(t: Task, owner: Option<int>, status: Option<TaskStatus>)
  {
    && (owner.Some? ==> t.userId == owner.value)
    && (status.Some? ==> t.status == status.value)
  }

  /** The ids the query selects. */
  function Selected(tasks: map<int, Task>, owner: Option<int>, status: Option<TaskStatus>): (r: set<int>)
    ensures forall id :: id in r <==> id in tasks && Matches(tasks[id], owner, status)
  {
    set id | id in tasks && Matches(tasks[id], owner, status)
  }

  /** `(page - 1) * limit`. */
  function Offset(page: int, limit: int): (o: int)
    ensures page >= 1 && limit >= 0 ==> o >= 0
  {
    (page - 1) * limit
  }

  /** The response rows for a list of ids, in that order. */
  function Render(tasks: map<int, Task>, ids: seq<int>): (items: seq<TaskOut>)
    requires forall i :: 0 <= i < |ids| ==> ids[i] in tasks
    ensures |items| == |ids|
    ensures forall i :: 0 <= i < |ids| ==> items[i] == ToOut(ids[i], tasks[ids[i]])
  {
    seq(|ids|, i requires 0 <= i < |ids| => ToOut(ids[i], tasks[ids[i]]))
  }

  /** The number of rows `OFFSET offset LIMIT limit` leaves of `n` rows. */
  function WindowLength(n: nat, offset: nat, limit: nat): (k: nat)
    ensures k <= limit && (k > 0 ==> offset + k <= n)
  {
    if offset < n then (if offset + limit <= n then limit else n - offset) else 0
  }

  /**
   * The ids of one page: the selection in id-descending order, `OFFSET offset LIMIT limit`.
   */
  function PageIdSeq(sel: set<int>, offset: nat, limit: nat): (ids: seq<int>)
    ensures |ids| == WindowLength(|sel|, offset, limit)
    ensures forall i :: 0 <= i < |ids| ==> offset + i < |sel| && ids[i] == SortedDesc(sel)[offset + i]
  {
    var sorted := SortedDesc(sel);
    var n := WindowLength(|sel|, offset, limit);
    if n == 0 then [] else sorted[offset..offset + n]
  }

  /** Every id on a page is selected, and the page is in descending id order. */
  lemma PageIdsSelectedDescending(sel: set<int>, offset: nat, limit: nat)
    ensures var ids := PageIdSeq(sel, offset, limit);
      && (forall i :: 0 <= i < |ids| ==> ids[i] in sel)
      && (forall i, j :: 0 <= i < j < |ids| ==> ids[i] > ids[j])
  {
    var ids := PageIdSeq(sel, offset, limit);
    var sorted := SortedDesc(sel);
    forall i | 0 <= i < |ids| ensures ids[i] in sel {
      assert ids[i] == sorted[offset + i] && sorted[offset + i] in sorted;
    }
    forall i, j | 0 <= i < j < |ids| ensures ids[i] > ids[j] {
      assert ids[i] == sorted[offset + i] && ids[j] == sorted[offset + j];
    }
  }

  /**
   * One page of the listing. `page >= 1` and `1 <= limit <= 100` are what the query
   * parameters' `Query(ge=1)` and `Query(ge=1, le=100)` let through.
   */
  function Paginate(tasks: map<int, Task>, owner: Option<int>, status: Option<TaskStatus>, page: int, limit: int): (r: PaginatedTasks)
    requires 1 <= page && 1 <= limit <= 100
    ensures r.page == page && r.limit == limit
    ensures r.total == |Selected(tasks, owner, status)|
    ensures |r.items| <= limit
    ensures |r.items| == WindowLength(r.total, Offset(page, limit), limit)
    ensures forall i :: 0 <= i < |r.items| ==>
      Offset(page, limit) + i < r.total && r.items[i].id == SortedDesc(Selected(tasks, owner, status))[Offset(page, limit) + i]
  {
    PageOf(tasks, Selected(tasks, owner, status), page, limit)
  }

  /** The page of a selection `sel` of the tasks' ids. */
  function PageOf(tasks: map<int, Task>, sel: set<int>, page: int, limit: int): (r: PaginatedTasks)
    requires sel <= tasks.Keys
    requires 1 <= page && 1 <= limit
    ensures r.page == page && r.limit == limit && r.total == |sel|
    ensures |r.items| == WindowLength(|sel|, Offset(page, limit), limit)
    ensures forall i :: 0 <= i < |r.items| ==>
      Offset(page, limit) + i < |sel| && r.items[i].id == SortedDesc(sel)[Offset(page, limit) + i]
  {
    var ids := PageIdSeq(sel, Offset(page, limit), limit);
    PageIdsSelectedDescending(sel, Offset(page, limit), limit);
    var items := Render(tasks, ids);
    assert forall i :: 0 <= i < |items| ==> items[i].id == ids[i];
    PaginatedTasks(items, |sel|, page, limit)
  }

  /**
   * Each row of a page is a selected task rendered as `TaskOut`, and the rows run in
   * descending id order.
   */
  lemma PageRows(tasks: map<int, Task>, owner: Option<int>, status: Option<TaskStatus>, page: int, limit: int)
    requires 1 <= page && 1 <= limit <= 100
    ensures var items := Paginate(tasks, owner, status, page, limit).items;
      && (forall i :: 0 <= i < |items| ==>
            var id := items[i].id; id in tasks && Matches(tasks[id], owner, status) && items[i] == ToOut(id, tasks[id]))
      && (forall i, j :: 0 <= i < j < |items| ==> items[i].id > items[j].id)
  {
    var sel := Selected(tasks, owner, status);
    var ids := PageIdSeq(sel, Offset(page, limit), limit);
    PageIdsSelectedDescending(sel, Offset(page, limit), limit);
    var items := Paginate(tasks, owner, status, page, limit).items;
    assert items == PageOf(tasks, sel, page, limit).items == Render(tasks, ids);
  }

  /**
   * The listing request: `OFFSET` is a bigint, so a `(page - 1) * limit` beyond int8 is a
   * `DataError` that no listing catches (500, after the count query has run); otherwise
   * the page.
   */
  function ListPage(tasks: map<int, Task>, owner: Option<int>, status: Option<TaskStatus>, page: int, limit: int): (r: Response<PaginatedTasks>)
    requires 1 <= page && 1 <= limit <= 100
    ensures r.Ok? <==> Offset(page, limit) <= INT8_MAX
    ensures r.Err? ==> r.error == InternalError
    ensures r.Ok? ==> r.value == Paginate(tasks, owner, status, page, limit)
  {
    if Offset(page, limit) > INT8_MAX then Err(InternalError) else Ok(Paginate(tasks, owner, status, page, limit))
  }

  /** The ids a response carries. */
  function Ids(items: seq<TaskOut>): (r: set<int>)
    ensures forall i :: 0 <= i < |items| ==> items[i].id in r
    ensures forall id :: id in r ==> exists i :: 0 <= i < |items| && items[i].id == id
  {
    set i | 0 <= i < |items| :: items[i].id
  }

  /** The ids on one page. */
  function PageIds(tasks: map<int, Task>, owner: Option<int>, status: Option<TaskStatus>, page: int, limit: int): set<int>
    requires 1 <= page && 1 <= limit <= 100
  {
    Ids(Paginate(tasks, owner, status, page, limit).items)
  }

  /** `ceil(total / limit)`: the number of non-empty pages. */
  function PageCount(total: nat, limit: int): nat
    requires limit >= 1
  {
    (total + limit - 1) / limit
  }

  lemma MulStep(a: int, d: int, l: int)
    requires d >= 1 && l >= 1
    ensures (a + d) * l >= a * l + l
  {
    assert (a + d) * l == a * l + d * l;
    assert d * l >= 1 * l;
  }

  lemma OffsetsApart(p: int, q: int, limit: int, i: int, j: int)
    requires 1 <= p < q && limit >= 1 && 0 <= i < limit && 0 <= j < limit
    ensures Offset(p, limit) + i < Offset(q, limit) + j
  {
    MulStep(p - 1, q - p, limit);
  }

  /** Rows of a descending list taken at two different positions carry different ids. */
  lemma DistinctPositions(sorted: seq<int>, a: int, b: int)
    requires forall i, j :: 0 <= i < j < |sorted| ==> sorted[i] > sorted[j]
    requires 0 <= a < |sorted| && 0 <= b < |sorted| && a != b
    ensures sorted[a] != sorted[b]
  {
    if a < b {
      assert sorted[a] > sorted[b];
    } else {
      assert sorted[b] > sorted[a];
    }
  }

  /** Two different pages of the same query share no task. */
  lemma PagesDisjoint(tasks: map<int, Task>, owner: Option<int>, status: Option<TaskStatus>, p: int, q: int, limit: int)
    requires 1 <= p && 1 <= q && p != q && 1 <= limit <= 100
    ensures PageIds(tasks, owner, status, p, limit) !! PageIds(tasks, owner, status, q, limit)
  {
    var sorted := SortedDesc(Selected(tasks, owner, status));
    var P := Paginate(tasks, owner, status, p, limit).items;
    var Q := Paginate(tasks, owner, status, q, limit).items;
    forall i, j | 0 <= i < |P| && 0 <= j < |Q| ensures P[i].id != Q[j].id {
      var a, b := Offset(p, limit) + i, Offset(q, limit) + j;
      if p < q {
        OffsetsApart(p, q, limit, i, j);
      } else {
        OffsetsApart(q, p, limit, j, i);
      }
      DistinctPositions(sorted, a, b);
    }
    var A, B := Ids(P), Ids(Q);
    forall x | x in A ensures x !in B {
      var i :| 0 <= i < |P| && P[i].id == x;
      assert forall j :: 0 <= j < |Q| ==> Q[j].id != x;
    }
  }

  lemma PageOfIndex(k: nat, limit: int, total: nat)
    requires 1 <= limit && k < total
    ensures 0 <= k % limit < limit
    ensures Offset(k / limit + 1, limit) + k % limit == k
    ensures 1 <= k / limit + 1 <= PageCount(total, limit)
  {
    var q, r := k / limit, k % limit;
    assert k == q * limit + r;
    assert (q + 1) * limit == q * limit + limit;
    assert (q + 1) * limit <= total + limit - 1;
    DivLowerBound(q + 1, limit, total + limit - 1);
  }

  lemma DivLowerBound(a: int, l: int, n: int)
    requires l >= 1 && a >= 0 && a * l <= n
    ensures a <= n / l
  {
    var q := n / l;
    assert (q + 1) * l == q * l + l;
    assert n < (q + 1) * l;
    if a > q {
      MulMono(q + 1, a, l);
      assert false;
    }
  }

  lemma MulMono(a: int, b: int, l: int)
    requires a <= b && l >= 1
    ensures a * l <= b * l
  {
    assert b * l - a * l == (b - a) * l;
  }

  /** The row at position `k` of the sorted selection lands on the page whose window covers `k`. */
  lemma PositionOnPage(tasks: map<int, Task>, owner: Option<int>, status: Option<TaskStatus>, page: int, limit: int, k: int)
    requires 1 <= page && 1 <= limit <= 100
    requires Offset(page, limit) <= k < Offset(page, limit) + limit
    requires k < |Selected(tasks, owner, status)|
    ensures SortedDesc(Selected(tasks, owner, status))[k] in PageIds(tasks, owner, status, page, limit)
  {
    var sel := Selected(tasks, owner, status);
    var off := Offset(page, limit);
    var items := Paginate(tasks, owner, status, page, limit).items;
    WindowCovers(|sel|, off, limit, k);
    RowAt(items, SortedDesc(sel), off, k);
  }

  /** A position inside both the window and the selection has a row on the page. */
  lemma WindowCovers(n: nat, offset: nat, limit: nat, k: int)
    requires offset <= k < offset + limit && k < n
    ensures 0 <= k - offset < WindowLength(n, offset, limit)
  {
  }

  /** Rows copying `sorted` from `offset` on carry the id at each position they cover. */
  lemma RowAt(items: seq<TaskOut>, sorted: seq<int>, offset: int, k: int)
    requires 0 <= offset <= k < offset + |items| && k < |sorted|
    requires forall i :: 0 <= i < |items| ==> offset + i < |sorted| && items[i].id == sorted[offset + i]
    ensures sorted[k] in Ids(items)
  {
    var i := k - offset;
    assert items[i].id == sorted[offset + i];
  }

  /** Every task the query selects is on one of the pages 1 .. ceil(total / limit). */
  lemma EverySelectedTaskIsPaged(tasks: map<int, Task>, owner: Option<int>, status: Option<TaskStatus>, limit: int, id: int)
    requires 1 <= limit <= 100
    requires id in Selected(tasks, owner, status)
    ensures exists page :: 1 <= page <= PageCount(|Selected(tasks, owner, status)|, limit)
                           && id in PageIds(tasks, owner, status, page, limit)
  {
    var sel := Selected(tasks, owner, status);
    var sorted := SortedDesc(sel);
    assert id in sorted;
    var k :| 0 <= k < |sorted| && sorted[k] == id;
    PageOfIndex(k, limit, |sel|);
    PositionOnPage(tasks, owner, status, k / limit + 1, limit, k);
  }

  /** Each page holds only selected tasks, so pages never report a task the count left out. */
  lemma PagesWithinSelection(tasks: map<int, Task>, owner: Option<int>, status: Option<TaskStatus>, page: int, limit: int)
    requires 1 <= page && 1 <= limit <= 100
    ensures PageIds(tasks, owner, status, page, limit) <= Selected(tasks, owner, status)
  {
    PageRows(tasks, owner, status, page, limit);
  }
}
