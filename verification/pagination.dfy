/**
 * The paging arithmetic of the events table: how many pages there are, which
 * page is shown, which slice of the entries it covers, and where the page
 * cursor goes after a deletion.
 */
module Pagination {

  /**
   * total_pages = (n - 1) // rows + 1. Python's // floors; Dafny's / agrees
   * with it for a positive divisor, also at n == 0 where both give -1.
   * For a non-empty list this is the ceiling of n / rows.
   */
  function TotalPages(n: nat, rows: nat): (t: int)
    requires rows > 0
    ensures n == 0 ==> t == 0
    ensures n > 0 ==> 1 <= t && (t - 1) * rows < n <= t * rows
  {
    (n - 1) / rows + 1
  }

  /** A cursor at or past the last page moves to the last page (never below 0). */
  function ClampPage(page: int, total: int): (r: int)
    ensures page < total ==> r == page
    ensures page >= total && total >= 1 ==> r == total - 1
    ensures page >= total && total < 1 ==> r == 0
  {
    if page >= total then (if total - 1 > 0 then total - 1 else 0) else page
  }

  function PageStart(page: nat, rows: nat): nat
  {
    page * rows
  }

  /** min(start + rows, n): the smaller of the two bounds. */
  function PageEnd(page: nat, rows: nat, n: nat): (e: nat)
    ensures e <= PageStart(page, rows) + rows && e <= n
    ensures e == PageStart(page, rows) + rows || e == n
  {
    if PageStart(page, rows) + rows < n then PageStart(page, rows) + rows else n
  }

  /** After clamping, the cursor names a real page. */
  lemma ClampInRange(page: nat, n: nat, rows: nat)
    requires n > 0 && rows > 0
    ensures 0 <= ClampPage(page, TotalPages(n, rows)) < TotalPages(n, rows)
    ensures page < TotalPages(n, rows) ==> ClampPage(page, TotalPages(n, rows)) == page
  {
  }

  /** Every page the cursor can name shows between one and rows entries. */
  lemma {:induction false} WindowNonEmpty(page: nat, n: nat, rows: nat)
    requires rows > 0 && page < TotalPages(n, rows)
    ensures PageStart(page, rows) < PageEnd(page, rows, n) <= n
    ensures PageEnd(page, rows, n) - PageStart(page, rows) <= rows
    ensures page + 1 < TotalPages(n, rows) ==> PageEnd(page, rows, n) - PageStart(page, rows) == rows
  {
    var t := TotalPages(n, rows);
    assert page * rows <= (t - 1) * rows by {
      MulMonotone(page, t - 1, rows);
    }
    if page + 1 < t {
      MulMonotone(page + 1, t - 1, rows);
    }
  }

  lemma MulMonotone(a: nat, b: nat, c: nat)
    requires a <= b
    ensures a * c <= b * c
  {
  }

  lemma MulSucc(a: nat, c: nat)
    ensures (a + 1) * c == a * c + c
  {
  }

  /** Entry i is shown on page p exactly when p == i / rows; so the pages tile the list. */
  lemma {:induction false} PageOfEntry(i: nat, p: nat, n: nat, rows: nat)
    requires i < n && rows > 0
    ensures PageStart(p, rows) <= i < PageEnd(p, rows, n) <==> p == i / rows
    ensures i / rows < TotalPages(n, rows)
  {
    var q := i / rows;
    assert q * rows <= i < q * rows + rows;
    MulSucc(q, rows);
    if p < q {
      MulMonotone(p + 1, q, rows);
      MulSucc(p, rows);
      assert PageEnd(p, rows, n) <= i;
    } else if p > q {
      MulMonotone(q + 1, p, rows);
      assert PageStart(p, rows) > i;
    } else {
      assert PageStart(p, rows) <= i < PageEnd(p, rows, n);
    }
    var t := TotalPages(n, rows);
    if q >= t {
      MulMonotone(t, q, rows);
      assert false;
    }
  }

  /** The slice entries[page * rows : page * rows + rows], clamped as Python slices are. */
  function Visible<T>(s: seq<T>, page: nat, rows: nat): (v: seq<T>)
    ensures |v| <= rows
    ensures |v| == if PageStart(page, rows) >= |s| then 0 else PageEnd(page, rows, |s|) - PageStart(page, rows)
    ensures forall k :: 0 <= k < |v| ==> PageStart(page, rows) + k < |s| && v[k] == s[PageStart(page, rows) + k]
  {
    if PageStart(page, rows) >= |s| then [] else s[PageStart(page, rows)..PageEnd(page, rows, |s|)]
  }

  /**
   * Where the cursor goes after an entry is deleted and len entries remain:
   * to 0 when the list is empty, one page back when it points past the last page.
   */
  function PageAfterDelete(page: nat, len: nat, rows: nat): (r: nat)
    requires rows > 0
    ensures len == 0 ==> r == 0
    ensures len > 0 && page < TotalPages(len, rows) ==> r == page
    ensures len > 0 && page >= TotalPages(len, rows) ==> r == page - 1
  {
    if len == 0 then 0
    else if page > (len - 1) / rows then (if page - 1 > 0 then page - 1 else 0)
    else page
  }

  /** One step back is enough: a cursor on a page before the deletion is on a page after it. */
  lemma {:induction false} DeleteKeepsPageInRange(page: nat, len: nat, rows: nat)
    requires rows > 0 && page < TotalPages(len + 1, rows)
    ensures len == 0 ==> PageAfterDelete(page, len, rows) == 0
    ensures len > 0 ==> PageAfterDelete(page, len, rows) < TotalPages(len, rows)
    ensures PageAfterDelete(page, len, rows) <= page
  {
    if len > 0 && page > (len - 1) / rows {
      var q := (len - 1) / rows;
      assert len - 1 < q * rows + rows;
      assert page * rows <= len by {
        MulMonotone(page, TotalPages(len + 1, rows) - 1, rows);
      }
      if page >= q + 2 {
        MulMonotone(q + 2, page, rows);
      }
    }
  }
}
