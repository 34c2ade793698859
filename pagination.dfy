/** The pagination arithmetic shared by `searchJobs`, `getApplications` and
    `getUsers`: `page` defaults to 1 and `limit` to 10, the query skips
    `(page - 1) * limit` rows and takes `limit`, and the response reports
    `pages = Math.ceil(total / limit)`. Page and limit are natural numbers
    (the query strings are taken as already converted). */
module Pagination {
  import opened Common

  const DefaultPage: nat := 1
  const DefaultLimit: nat := 10

  /** Prisma's `skip` and `take`. */
  datatype Window = Window(skip: int, take: nat)

  /** The `pagination` object of a response; `pages` is `None` when
      `total / limit` is not finite (a limit of 0). */
  datatype PageInfo = PageInfo(total: nat, page: nat, limit: nat, pages: Option<nat>)

  function OrDefault(v: Option<nat>, default: nat): (r: nat)
    ensures v.None? ==> r == default
    ensures v.Some? ==> r == v.value
  {
    if v.Some? then v.value else default
  }

  /** `skip: (Number(page) - 1) * Number(limit), take: Number(limit)`. */
  function WindowOf(page: Option<nat>, limit: Option<nat>): (w: Window)
    ensures w.take == OrDefault(limit, DefaultLimit)
    ensures w.skip == (OrDefault(page, DefaultPage) - 1) * w.take
  {
    var p := OrDefault(page, DefaultPage);
    var l := OrDefault(limit, DefaultLimit);
    Window((p - 1) * l, l)
  }

  /** With no page and no limit, the first ten rows. */
  lemma DefaultWindow()
    ensures WindowOf(None, None) == Window(0, 10)
  {
  }

  /** Consecutive pages are adjacent windows: page `p + 1` starts where
      page `p` ends, and page 1 starts at row 0. */
  lemma WindowsAdjacent(p: nat, limit: Option<nat>)
    requires p >= 1
    ensures WindowOf(Some(p + 1), limit).skip == WindowOf(Some(p), limit).skip + WindowOf(Some(p), limit).take
    ensures WindowOf(Some(1), limit).skip == 0
  {
  }

  /** `Math.ceil(total / limit)`. */
  function Pages(total: nat, limit: nat): (r: Option<nat>)
    ensures r.None? <==> limit == 0
    ensures r.Some? ==> r.value * limit >= total
    ensures r.Some? && total > 0 ==> (r.value - 1) * limit < total
    ensures r.Some? ==> (r.value == 0 <==> total == 0)
  {
    if limit == 0 then None
    else
      var q := (total + limit - 1) / limit;
      CeilBounds(total, limit, q);
      Some(q)
  }

  lemma CeilBounds(total: nat, limit: nat, q: nat)
    requires limit > 0 && q == (total + limit - 1) / limit
    ensures q * limit >= total
    ensures total > 0 ==> (q - 1) * limit < total
    ensures q == 0 <==> total == 0
  {
    var r := (total + limit - 1) % limit;
    assert q * limit + r == total + limit - 1;
    assert 0 <= r < limit;
  }

  function PageInfoOf(total: nat, page: Option<nat>, limit: Option<nat>): (info: PageInfo)
    ensures info.total == total && info.page == OrDefault(page, DefaultPage)
    ensures info.limit == OrDefault(limit, DefaultLimit)
    ensures info.pages == Pages(total, info.limit)
  {
    var l := OrDefault(limit, DefaultLimit);
    PageInfo(total, OrDefault(page, DefaultPage), l, Pages(total, l))
  }

  function Min(a: int, b: int): int { if a <= b then a else b }

  /** `findMany({ skip, take })` over the matching rows in order. Prisma
      rejects a negative `skip` (page 0) with a validation error. */
  function Fetch<T>(rows: seq<T>, w: Window): (r: Option<seq<T>>)
    ensures r.None? <==> w.skip < 0
    ensures r.Some? ==> |r.value| == Min(w.take, if w.skip <= |rows| then |rows| - w.skip else 0)
    ensures r.Some? ==> forall i :: 0 <= i < |r.value| ==> r.value[i] == rows[w.skip + i]
  {
    if w.skip < 0 then None
    else if w.skip >= |rows| then Some([])
    else Some(rows[w.skip..Min(w.skip + w.take, |rows|)])
  }

  /** The rows of page `p` for a given limit. */
  function PageRows<T>(rows: seq<T>, p: nat, limit: nat): seq<T>
    requires p >= 1
  {
    Fetch(rows, WindowOf(Some(p), Some(limit))).value
  }

  /** Pages 1 to `k` in order. */
  function FirstPages<T>(rows: seq<T>, k: nat, limit: nat): seq<T>
  {
    if k == 0 then [] else FirstPages(rows, k - 1, limit) + PageRows(rows, k, limit)
  }

  /** Page `k` is the slice between the ends of pages `k - 1` and `k`. */
  lemma PageSlice<T>(rows: seq<T>, k: nat, limit: nat)
    requires k >= 1
    ensures Min((k - 1) * limit, |rows|) <= Min(k * limit, |rows|)
    ensures PageRows(rows, k, limit) == rows[Min((k - 1) * limit, |rows|)..Min(k * limit, |rows|)]
  {
    var w := WindowOf(Some(k), Some(limit));
    assert w.skip == (k - 1) * limit && w.take == limit;
    assert w.skip + w.take == k * limit by {
      assert (k - 1) * limit + limit == k * limit;
    }
    var page := PageRows(rows, k, limit);
    var a := Min(w.skip, |rows|);
    var b := Min(w.skip + w.take, |rows|);
    assert |page| == b - a;
    assert forall i :: 0 <= i < |page| ==> page[i] == rows[a + i];
  }

  lemma {:induction false} FirstPagesPrefix<T>(rows: seq<T>, k: nat, limit: nat)
    ensures FirstPages(rows, k, limit) == rows[..Min(k * limit, |rows|)]
  {
    if k > 0 {
      FirstPagesPrefix(rows, k - 1, limit);
      PageSlice(rows, k, limit);
      var a := Min((k - 1) * limit, |rows|);
      var b := Min(k * limit, |rows|);
      assert rows[..a] + rows[a..b] == rows[..b];
    }
  }

  /** Reading pages 1 to `pages` in order returns every matched row once,
      in order. */
  lemma AllPagesCoverRows<T>(rows: seq<T>, limit: nat)
    requires limit > 0
    ensures FirstPages(rows, Pages(|rows|, limit).value, limit) == rows
  {
    FirstPagesPrefix(rows, Pages(|rows|, limit).value, limit);
  }

  /** A page of results with its `pagination` object. */
  datatype Listing<T> = Listing(rows: seq<T>, pagination: PageInfo)

  /** The rows a `where` filter keeps, in their original order. */
  function Where<T>(rows: seq<T>, keep: T -> bool): (r: seq<T>)
    ensures |r| <= |rows|
    ensures forall i :: 0 <= i < |r| ==> keep(r[i]) && r[i] in rows
    ensures forall x :: x in rows && keep(x) ==> x in r
  {
    if rows == [] then []
    else if keep(rows[0]) then [rows[0]] + Where(rows[1..], keep)
    else Where(rows[1..], keep)
  }

  /** Filtering a concatenation filters each part, in order. */
  lemma {:induction false} WhereAppend<T>(a: seq<T>, b: seq<T>, keep: T -> bool)
    ensures Where(a + b, keep) == Where(a, keep) + Where(b, keep)
  {
    if a != [] {
      assert (a + b)[0] == a[0];
      assert (a + b)[1..] == a[1..] + b;
      WhereAppend(a[1..], b, keep);
    } else {
      assert a + b == b;
    }
  }

  /** One row is kept exactly when the filter holds of it; with
      `WhereAppend`, this determines `Where` on every list, and so every
      count built from it. */
  lemma WhereOne<T>(x: T, keep: T -> bool)
    ensures Where([x], keep) == if keep(x) then [x] else []
  {
  }

  /** The rows kept, counted with multiplicity, are the rows satisfying the
      filter. */
  lemma {:induction false} WhereMultiset<T>(rows: seq<T>, keep: T -> bool, x: T)
    ensures multiset(Where(rows, keep))[x] == if keep(x) then multiset(rows)[x] else 0
  {
    if rows != [] {
      WhereMultiset(rows[1..], keep, x);
      assert multiset(rows) == multiset([rows[0]]) + multiset(rows[1..]) by {
        assert rows == [rows[0]] + rows[1..];
      }
      if keep(rows[0]) {
        assert Where(rows, keep) == [rows[0]] + Where(rows[1..], keep);
        assert multiset(Where(rows, keep)) == multiset([rows[0]]) + multiset(Where(rows[1..], keep));
      }
    }
  }

  /** Only page 0 with a positive limit gives a negative `skip`. */
  lemma NegativeSkip(page: Option<nat>, limit: Option<nat>)
    ensures WindowOf(page, limit).skip < 0 <==> page == Some(0) && OrDefault(limit, DefaultLimit) > 0
  {
    var p := OrDefault(page, DefaultPage);
    var l := OrDefault(limit, DefaultLimit);
    if p >= 1 {
      assert (p - 1) * l >= 0;
    }
  }

  /** A filter that keeps no row returns nothing. */
  lemma {:induction false} WhereEmpty<T>(rows: seq<T>, keep: T -> bool)
    requires forall i :: 0 <= i < |rows| ==> !keep(rows[i])
    ensures Where(rows, keep) == []
  {
    if rows != [] {
      assert forall i :: 0 <= i < |rows[1..]| ==> rows[1..][i] == rows[i + 1];
      WhereEmpty(rows[1..], keep);
    }
  }

  /** A filter that keeps every row returns them all. */
  lemma {:induction false} WhereAll<T>(rows: seq<T>, keep: T -> bool)
    requires forall i :: 0 <= i < |rows| ==> keep(rows[i])
    ensures Where(rows, keep) == rows
  {
    if rows != [] {
      assert forall i :: 0 <= i < |rows[1..]| ==> rows[1..][i] == rows[i + 1];
      WhereAll(rows[1..], keep);
      assert rows == [rows[0]] + rows[1..];
    }
  }

  /** `findMany({ where, skip, take })` together with `count({ where })`:
      one page of the kept rows and the pagination object over all of
      them; a negative `skip` is Prisma's validation error. */
  function Paginate<T>(rows: seq<T>, keep: T -> bool, page: Option<nat>, limit: Option<nat>): (r: Response<Listing<T>>)
    ensures r.Forward? <==> WindowOf(page, limit).skip < 0
    ensures r.Forward? ==> r.error == PrismaValidation
    ensures r.Respond? ==>
      && r.statusCode == 200
      && |r.body.rows| <= WindowOf(page, limit).take
      && (forall i :: 0 <= i < |r.body.rows| ==> keep(r.body.rows[i]) && r.body.rows[i] in rows)
      && Fetch(Where(rows, keep), WindowOf(page, limit)) == Some(r.body.rows)
      && r.body.pagination == PageInfoOf(|Where(rows, keep)|, page, limit)
  {
    var kept := Where(rows, keep);
    match Fetch(kept, WindowOf(page, limit))
    case None => Forward(PrismaValidation)
    case Some(pageRows) => Respond(200, Listing(pageRows, PageInfoOf(|kept|, page, limit)))
  }
}
