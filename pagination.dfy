/**
 * The pagination arithmetic of the transactions page: ten records to a page,
 * `Math.ceil(n / 10)` pages, the page shown as a `slice` of the filtered list,
 * the "Showing a to b of n results" label and the clamped Previous and Next
 * buttons.
 */
module Pagination {
  import opened Js

  const PageSize: nat := 10

  /** `Math.ceil(n / itemsPerPage)`. */
  function TotalPages(n: nat): (r: nat)
    ensures r * PageSize >= n
    ensures r > 0 ==> (r - 1) * PageSize < n
  {
    (n + PageSize - 1) / PageSize
  }

  /** `filtered.slice((page - 1) * 10, page * 10)`. The page counter can reach 0
      (see `NextOnEmptyResult`), where the slice starts at -10 and ends at 0. */
  function Page<T>(xs: seq<T>, page: nat): (r: seq<T>)
    ensures |r| <= PageSize
    ensures page == 0 ==> r == []
    ensures forall k :: 0 <= k < |r| ==> (page - 1) * PageSize + k < |xs| && r[k] == xs[(page - 1) * PageSize + k]
  {
    Slice(xs, (page - 1) * PageSize, page * PageSize)
  }

  function Min(a: int, b: int): int
  {
    if a < b then a else b
  }

  /** A page is the run of the filtered list between positions (p-1)*10 and
      p*10, cut at the end of the list; it never holds more than ten records,
      and page 0 is empty. */
  lemma PageIsSlice<T>(xs: seq<T>, page: nat)
    ensures page >= 1 ==>
      Min((page - 1) * PageSize, |xs|) <= Min(page * PageSize, |xs|) &&
      Page(xs, page) == xs[Min((page - 1) * PageSize, |xs|)..Min(page * PageSize, |xs|)]
    ensures |Page(xs, page)| <= PageSize
    ensures page == 0 ==> Page(xs, page) == []
  {
  }

  /** Every page from 1 to the last holds at least one record; the pages after
      the last are empty. */
  lemma PageNonEmpty<T>(xs: seq<T>, page: nat)
    requires page >= 1
    ensures Page(xs, page) != [] <==> page <= TotalPages(|xs|)
  {
    PageIsSlice(xs, page);
  }

  /** Pages 1..k, concatenated. */
  function Pages<T>(xs: seq<T>, k: nat): seq<T>
  {
    if k == 0 then [] else Pages(xs, k - 1) + Page(xs, k)
  }

  lemma {:induction false} PagesArePrefix<T>(xs: seq<T>, k: nat)
    ensures Pages(xs, k) == xs[..Min(k * PageSize, |xs|)]
  {
    if k > 0 {
      PagesArePrefix(xs, k - 1);
      PageIsSlice(xs, k);
      var a, b := Min((k - 1) * PageSize, |xs|), Min(k * PageSize, |xs|);
      assert xs[..a] + xs[a..b] == xs[..b];
    }
  }

  /** Concatenating pages 1 to `TotalPages` gives back the filtered list:
      every record appears on exactly one page, in the original order. */
  lemma PagesReassemble<T>(xs: seq<T>)
    ensures Pages(xs, TotalPages(|xs|)) == xs
  {
    PagesArePrefix(xs, TotalPages(|xs|));
  }

  /** The two numbers of "Showing first to last of total results". */
  datatype Label = Label(first: int, last: int, total: nat)

  /** `(currentPage - 1) * itemsPerPage + 1`, `Math.min(currentPage *
      itemsPerPage, filtered.length)` and the total: the label never names more
      than ten rows, nor a row past the total. */
  function ResultsLabel(page: nat, n: nat): (r: Label)
    ensures r.total == n && r.last <= n
    ensures page >= 1 ==> r.first >= 1
    ensures r.last - r.first + 1 <= PageSize
  {
    Label((page - 1) * PageSize + 1, Min(page * PageSize, n), n)
  }

  /** On a page that exists, the label names the positions (counting from 1)
      of the first and last record shown, so it counts exactly the records on
      the page. */
  lemma LabelMatchesPage<T>(xs: seq<T>, page: nat)
    requires 1 <= page <= TotalPages(|xs|)
    ensures var l := ResultsLabel(page, |xs|);
      && 1 <= l.first <= l.last <= |xs|
      && l.last - l.first + 1 == |Page(xs, page)|
      && Page(xs, page)[0] == xs[l.first - 1]
      && Page(xs, page)[|Page(xs, page)| - 1] == xs[l.last - 1]
  {
    PageIsSlice(xs, page);
  }

  /** The worked example: 23 records make 3 pages; page 1 shows records 1-10
      and page 3 shows records 21-23, labelled "Showing 21 to 23 of 23". */
  lemma TwentyThreeRecords<T>(xs: seq<T>)
    requires |xs| == 23
    ensures TotalPages(|xs|) == 3
    ensures Page(xs, 1) == xs[..10]
    ensures Page(xs, 3) == xs[20..]
    ensures ResultsLabel(3, |xs|) == Label(21, 23, 23)
  {
  }

  // ---------------------------------------------------------------------------
  // Previous and Next

  /** The Previous button: `Math.max(1, prev - 1)`. */
  function PrevPage(page: nat): (r: nat)
    ensures r >= 1
    ensures page >= 2 ==> r == page - 1
    ensures page <= 1 ==> r == 1
  {
    if page - 1 < 1 then 1 else page - 1
  }

  /** The Next button: `Math.min(totalPages, prev + 1)`. */
  function NextPage(page: nat, totalPages: nat): (r: nat)
    ensures r <= totalPages
    ensures page < totalPages ==> r == page + 1
    ensures page >= totalPages ==> r == totalPages
  {
    if totalPages < page + 1 then totalPages else page + 1
  }

  /** From a page in range, both buttons lead to a page in range; at page 1
      Previous stays, at the last page Next stays, and they undo each other. */
  lemma ButtonsStayInRange(page: nat, totalPages: nat)
    requires 1 <= page <= totalPages
    ensures 1 <= PrevPage(page) <= totalPages && 1 <= NextPage(page, totalPages) <= totalPages
    ensures page == 1 ==> PrevPage(page) == page
    ensures page == totalPages ==> NextPage(page, totalPages) == page
    ensures page < totalPages ==> PrevPage(NextPage(page, totalPages)) == page
    ensures page > 1 ==> NextPage(PrevPage(page), totalPages) == page
  {
  }

  /** With no matching record there are no pages, and Next from page 1 moves to
      page 0, whose label reads "Showing -9 to 0 of 0 results". At page 1 the
      label reads "Showing 1 to 0 of 0 results". */
  lemma NextOnEmptyResult<T>(xs: seq<T>)
    requires xs == []
    ensures TotalPages(|xs|) == 0
    ensures NextPage(1, TotalPages(|xs|)) == 0
    ensures ResultsLabel(1, |xs|) == Label(1, 0, 0)
    ensures ResultsLabel(0, |xs|) == Label(-9, 0, 0)
    ensures Page(xs, 0) == []
  {
  }
}
