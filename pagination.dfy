/** The pagination arithmetic of the list endpoint (`get_air_quality` in
    app.py) and the SQLite `LIMIT ? OFFSET ?` it relies on. */
module Pagination {
  import opened Wrappers

  /** The largest page size a request may ask for. */
  const MaxLimit: int := 100

  /** The page size when the request names none. */
  const DefaultLimit: int := 50

  /** The page number when the request names none. */
  const DefaultPage: int := 1

  /** The page size actually used, `min(limit, 100)`: requests above the
      maximum are cut down to it, all others (zero and negative ones
      included) pass unchanged. */
  function ClampLimit(requested: int): (limit: int)
    ensures limit <= MaxLimit
    ensures requested <= MaxLimit ==> limit == requested
    ensures requested > MaxLimit ==> limit == MaxLimit
  {
    if requested <= MaxLimit then requested else MaxLimit
  }

  /** The number of rows skipped before page `page`. */
  function Offset(page: int, limit: int): int
  {
    (page - 1) * limit
  }

  /** (helper) Multiplying by a positive number keeps the sign and moves
      away from zero by at least that number. */
  lemma MulSign(k: int, d: int)
    requires d >= 1
    ensures k >= 1 ==> k * d >= d
    ensures k <= -1 ==> k * d <= -d
    ensures k == 0 ==> k * d == 0
  {
    if k >= 1 {
      assert k * d == d + (k - 1) * d;
      MulNonNegative(k - 1, d);
    } else if k <= -1 {
      assert k * d == -d - (-k - 1) * d;
      MulNonNegative(-k - 1, d);
    }
  }

  /** (helper) The product of two non-negative numbers is non-negative. */
  lemma MulNonNegative(a: int, b: int)
    requires a >= 0 && b >= 0
    ensures a * b >= 0
  {
  }

  /** (helper) Multiplying by a non-negative number keeps the order. */
  lemma MulMonotone(x: int, y: int, d: int)
    requires x <= y && d >= 0
    ensures x * d <= y * d
  {
    MulNonNegative(y - x, d);
    assert (y - x) * d == y * d - x * d;
  }

  /** (helper) One factor less takes one multiple away. */
  lemma MulPred(a: int, d: int)
    ensures (a - 1) * d == a * d - d
    ensures (a + 1) * d == a * d + d
  {
  }

  /** (helper) Dividing an exact multiple gives back the factor. */
  lemma DivExact(q: int, d: int)
    requires d >= 1
    ensures (q * d) / d == q && (q * d) % d == 0
  {
    var a := q * d;
    var r := a % d;
    var p := a / d;
    assert a == p * d + r;
    assert (q - p) * d == r;
    MulSign(q - p, d);
  }

  /** For a real page (`page >= 1`) the offset is non-negative, it is the
      multiple `page - 1` of the page size, and the next page starts
      exactly one page size further on. */
  lemma OffsetIsPageStart(page: int, limit: int)
    requires page >= 1 && limit >= 0
    ensures Offset(page, limit) >= 0
    ensures limit >= 1 ==> Offset(page, limit) % limit == 0 && Offset(page, limit) / limit == page - 1
    ensures Offset(page + 1, limit) == Offset(page, limit) + limit
  {
    MulNonNegative(page - 1, limit);
    MulPred(page, limit);
    if limit >= 1 {
      DivExact(page - 1, limit);
    }
  }

  /** Python's `a // b`: the quotient rounded toward minus infinity, for
      either sign of the divisor. */
  function FloorDiv(a: int, b: int): (q: int)
    requires b != 0
    ensures b > 0 ==> b * q <= a < b * q + b
    ensures b < 0 ==> b * q + b < a <= b * q
  {
    if b > 0 then a / b else (-a) / (-b)
  }

  /** The `pages` field, `(total + limit - 1) // limit`; `None` when a
      page size of 0 makes the division raise `ZeroDivisionError`. */
  function PageCount(total: int, limit: int): (r: Option<int>)
    ensures r.None? <==> limit == 0
  {
    if limit == 0 then None else Some(FloorDiv(total + limit - 1, limit))
  }

  /** For a positive page size, the page count is the ceiling of
      `total / limit`: enough pages for every row, and no page to spare. */
  lemma PageCountIsCeiling(total: nat, limit: int)
    requires limit >= 1
    ensures PageCount(total, limit).Some?
    ensures PageCount(total, limit).value >= 0
    ensures PageCount(total, limit).value * limit >= total
    ensures total > 0 ==> (PageCount(total, limit).value - 1) * limit < total
    ensures total == 0 ==> PageCount(total, limit).value == 0
  {
    var pages := PageCount(total, limit).value;
    assert pages * limit <= total + limit - 1 < pages * limit + limit;
    MulSign(pages, limit);
    MulPred(pages, limit);
  }

  /** The smaller of two integers. */
  function Min(a: int, b: int): int
  {
    if a <= b then a else b
  }

  /** SQLite's `LIMIT limit OFFSET offset` over rows already in result
      order: a negative offset counts as zero, a negative limit means no
      bound. */
  function Window<T>(rows: seq<T>, limit: int, offset: int): (w: seq<T>)
    ensures |w| <= |rows|
    ensures limit >= 0 ==> |w| <= limit
  {
    var start := if offset < 0 then 0 else Min(offset, |rows|);
    var end := if limit < 0 then |rows| else Min(start + limit, |rows|);
    rows[start..end]
  }

  /** The rows of `count` consecutive pages, the first of them `page`. */
  function PageRun<T>(rows: seq<T>, limit: int, page: int, count: nat): seq<T>
    decreases count
  {
    if count == 0 then []
    else Window(rows, limit, Offset(page, limit)) + PageRun(rows, limit, page + 1, count - 1)
  }

  /** (helper) For a non-negative offset and page size the window is the
      slice between the two cut-off points. */
  lemma WindowSlice<T>(rows: seq<T>, limit: int, offset: int)
    requires limit >= 0 && offset >= 0
    ensures Window(rows, limit, offset) == rows[Min(offset, |rows|)..Min(offset + limit, |rows|)]
  {
  }

  /** (helper) Two adjacent slices cut at the end of the rows join into one. */
  lemma JoinSlices<T>(rows: seq<T>, x: int, y: int, z: int)
    requires 0 <= x <= y <= z
    ensures rows[Min(x, |rows|)..Min(y, |rows|)] + rows[Min(y, |rows|)..Min(z, |rows|)]
              == rows[Min(x, |rows|)..Min(z, |rows|)]
  {
  }

  /** Consecutive pages hold consecutive rows: `count` pages from `page` on
      are the slice of the rows from that page's offset, `count` page
      sizes long (cut at the end of the rows). */
  lemma {:induction false} PageRunIsSlice<T>(rows: seq<T>, limit: int, page: int, count: nat)
    requires limit >= 1 && page >= 1
    ensures PageRun(rows, limit, page, count) ==
              rows[Min(Offset(page, limit), |rows|)..Min(Offset(page, limit) + count * limit, |rows|)]
    decreases count
  {
    var o := Offset(page, limit);
    if count > 0 {
      PageRunIsSlice(rows, limit, page + 1, count - 1);
      RunArithmetic(page, limit, count);
      ExtendRun(rows, limit, o, o + count * limit, PageRun(rows, limit, page + 1, count - 1));
    }
  }

  /** (helper) A window followed by the slice that starts where the
      window ends is one slice. */
  lemma ExtendRun<T>(rows: seq<T>, limit: int, offset: int, end: int, rest: seq<T>)
    requires limit >= 0 && 0 <= offset && offset + limit <= end
    requires rest == rows[Min(offset + limit, |rows|)..Min(end, |rows|)]
    ensures Window(rows, limit, offset) + rest == rows[Min(offset, |rows|)..Min(end, |rows|)]
  {
    WindowSlice(rows, limit, offset);
    JoinSlices(rows, offset, offset + limit, end);
  }

  /** (helper) The offsets of a run of pages: the run after the first page
      starts one page size later and ends where the whole run ends. */
  lemma RunArithmetic(page: int, limit: int, count: int)
    requires limit >= 1 && page >= 1 && count >= 1
    ensures Offset(page, limit) >= 0
    ensures Offset(page + 1, limit) == Offset(page, limit) + limit
    ensures Offset(page + 1, limit) + (count - 1) * limit == Offset(page, limit) + count * limit
    ensures limit <= count * limit
  {
    OffsetIsPageStart(page, limit);
    MulPred(count, limit);
    MulSign(count, limit);
  }

  /** Requesting pages 1 through `pages` in turn yields every matching row
      exactly once, in order. */
  lemma AllPagesCoverRows<T>(rows: seq<T>, limit: int)
    requires limit >= 1
    ensures PageCount(|rows|, limit).Some?
    ensures PageRun(rows, limit, 1, PageCount(|rows|, limit).value) == rows
  {
    PageCountIsCeiling(|rows|, limit);
    var pages := PageCount(|rows|, limit).value;
    PageRunIsSlice(rows, limit, 1, pages);
    assert Offset(1, limit) == 0;
    assert rows[0..|rows|] == rows;
  }

  /** Every page up to `pages` holds at least one row, every page before
      the last is full, and every page after `pages` is empty. */
  lemma PageContents<T>(rows: seq<T>, limit: int, page: int)
    requires limit >= 1 && page >= 1
    ensures PageCount(|rows|, limit).Some?
    ensures page <= PageCount(|rows|, limit).value ==> |Window(rows, limit, Offset(page, limit))| >= 1
    ensures page < PageCount(|rows|, limit).value ==> |Window(rows, limit, Offset(page, limit))| == limit
    ensures page > PageCount(|rows|, limit).value ==> Window(rows, limit, Offset(page, limit)) == []
  {
    PageCountIsCeiling(|rows|, limit);
    OffsetIsPageStart(page, limit);
    var pages := PageCount(|rows|, limit).value;
    var o := Offset(page, limit);
    WindowSlice(rows, limit, o);
    MulPred(page, limit);
    MulPred(pages, limit);
    if page <= pages {
      MulMonotone(page - 1, pages - 1, limit);
    }
    if page < pages {
      MulMonotone(page, pages - 1, limit);
    }
    if page > pages {
      MulMonotone(pages, page - 1, limit);
    }
  }

  /** A page number of 1 or less has a non-positive offset, which SQLite
      reads as 0: such a request gets the rows of the first page. */
  lemma LowPageShowsFirstRows<T>(rows: seq<T>, limit: int, page: int)
    requires limit >= 0 && page <= 1
    ensures Offset(page, limit) <= 0
    ensures Window(rows, limit, Offset(page, limit)) == Window(rows, limit, 0)
  {
    MulMonotone(page - 1, 0, limit);
  }

  /** With a negative page size (no bound in SQLite) a page number of 1 or
      less gives a non-negative offset of `(1 - page) * -limit`: such a
      request skips that many rows and reads all the rest. */
  lemma LowPageNegativeLimit<T>(rows: seq<T>, limit: int, page: int)
    requires limit < 0 && page <= 1
    ensures Offset(page, limit) == (1 - page) * -limit >= 0
    ensures Window(rows, limit, Offset(page, limit)) == rows[Min(Offset(page, limit), |rows|)..]
    ensures page < 1 ==> Offset(page, limit) >= -limit
  {
    MulNonNegative(1 - page, -limit);
    if page < 1 {
      MulMonotone(1, 1 - page, -limit);
    }
  }
}
