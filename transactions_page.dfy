/**
 * The state of the transactions page and the handlers that change it: the
 * fetched list, the search text, the five filter fields and the current page.
 * What the table shows is always a function of that state.
 */
module TransactionsPage {
  import opened Js
  import opened Transactions
  import opened Pagination

  /** The filter field a handler writes to. */
  datatype FilterField = StatusField | MinAmountField | MaxAmountField | StartDateField | EndDateField

  /** `{ ...prev, [field]: value }`. */
  function WithField(f: Filters, field: FilterField, value: string): (r: Filters)
    ensures r.status == (if field == StatusField then value else f.status)
    ensures r.minAmount == (if field == MinAmountField then value else f.minAmount)
    ensures r.maxAmount == (if field == MaxAmountField then value else f.maxAmount)
    ensures r.startDate == (if field == StartDateField then value else f.startDate)
    ensures r.endDate == (if field == EndDateField then value else f.endDate)
  {
    match field
    case StatusField => f.(status := value)
    case MinAmountField => f.(minAmount := value)
    case MaxAmountField => f.(maxAmount := value)
    case StartDateField => f.(startDate := value)
    case EndDateField => f.(endDate := value)
  }

  /** The text of one filter field. */
  function FieldValue(f: Filters, field: FilterField): string
  {
    match field
    case StatusField => f.status
    case MinAmountField => f.minAmount
    case MaxAmountField => f.maxAmount
    case StartDateField => f.startDate
    case EndDateField => f.endDate
  }

  /** A field reads back what was written to it, writing a field its own
      value changes nothing, and a second write to a field replaces the first. */
  lemma WithFieldReadBack(f: Filters, field: FilterField, value: string, other: string)
    ensures FieldValue(WithField(f, field, value), field) == value
    ensures WithField(f, field, FieldValue(f, field)) == f
    ensures WithField(WithField(f, field, other), field, value) == WithField(f, field, value)
  {
  }

  class TransactionsView {
    var transactions: seq<Transaction>
    var search: string
    var filters: Filters
    var currentPage: nat
    /** How the page reads amounts and dates. */
    const parsers: Parsers

    /** The page as first rendered: nothing fetched yet, page 1, nothing typed. */
    constructor (parsers: Parsers)
      ensures transactions == [] && search == "" && filters == NoFilters && currentPage == 1
      ensures this.parsers == parsers
    {
      transactions := [];
      search := "";
      filters := NoFilters;
      currentPage := 1;
      this.parsers := parsers;
    }

    /** `filteredTransactions`. */
    function Results(): (r: seq<Transaction>)
      reads this
      ensures Subsequence(r, transactions)
      ensures forall i :: 0 <= i < |r| ==> Keep(r[i], search, filters, parsers)
    {
      FilteredIsSubsequence(transactions, search, filters, parsers);
      Filtered(transactions, search, filters, parsers)
    }

    /** `paginatedTransactions`: the rows of the table. */
    function Visible(): (r: seq<Transaction>)
      reads this
      ensures |r| <= PageSize
      ensures forall i :: 0 <= i < |r| ==> Keep(r[i], search, filters, parsers)
    {
      Page(Results(), currentPage)
    }

    /** `totalPages`: no page exactly when nothing matches. */
    function PageCount(): (r: nat)
      reads this
      ensures r * PageSize >= |Results()|
      ensures r == 0 <==> Results() == []
    {
      TotalPages(|Results()|)
    }

    /** The fetch settled: on success the list is the response, on failure it
        stays as it was (empty, since the page fetches once). */
    method FetchSettled(response: Option<seq<Transaction>>)
      modifies this
      ensures transactions == (if response.Some? then response.value else old(transactions))
      ensures search == old(search) && filters == old(filters) && currentPage == old(currentPage)
    {
      if response.Some? {
        transactions := response.value;
      }
    }

    /** The search box's `onChange`. */
    method SetSearch(value: string)
      modifies this
      ensures search == value
      ensures transactions == old(transactions) && filters == old(filters) && currentPage == old(currentPage)
    {
      search := value;
    }

    /** The `onChange` of one of the five filter inputs. */
    method SetFilter(field: FilterField, value: string)
      modifies this
      ensures filters == WithField(old(filters), field, value)
      ensures transactions == old(transactions) && search == old(search) && currentPage == old(currentPage)
    {
      filters := WithField(filters, field, value);
    }

    /** `resetFilters`: the five structured fields become empty; the search
        text and the page stay. */
    method ResetFilters()
      modifies this
      ensures filters == NoFilters
      ensures transactions == old(transactions) && search == old(search) && currentPage == old(currentPage)
    {
      filters := NoFilters;
    }

    /** The Previous button. */
    method Prev()
      modifies this
      ensures currentPage == PrevPage(old(currentPage))
      ensures currentPage >= 1
      ensures transactions == old(transactions) && search == old(search) && filters == old(filters)
    {
      currentPage := PrevPage(currentPage);
    }

    /** The Next button, clamped to the page count of the current results. */
    method Next()
      modifies this
      ensures currentPage == NextPage(old(currentPage), old(PageCount()))
      ensures currentPage <= PageCount()
      ensures transactions == old(transactions) && search == old(search) && filters == old(filters)
    {
      currentPage := NextPage(currentPage, TotalPages(|Filtered(transactions, search, filters, parsers)|));
    }

    /** The label under the table. */
    method ShowingLabel() returns (l: Label)
      ensures l == ResultsLabel(currentPage, |Results()|)
      ensures 1 <= currentPage <= PageCount() ==> l.last - l.first + 1 == |Visible()|
    {
      l := ResultsLabel(currentPage, |Filtered(transactions, search, filters, parsers)|);
      if 1 <= currentPage <= PageCount() {
        LabelMatchesPage(Results(), currentPage);
      }
    }
  }

  /** A fetch that fails leaves the table empty, with no pages. */
  method FailedFetchShowsNothing(parsers: Parsers) returns (rows: seq<Transaction>, pages: nat)
    ensures rows == [] && pages == 0
  {
    var view := new TransactionsView(parsers);
    view.FetchSettled(None);
    rows, pages := view.Visible(), view.PageCount();
  }
}
