# Card information and transactions display: verified model of the page logic

The application is a single-page React app with two pages. The **card page**
shows one issued payment card. It puts spaces back into the stored cardholder
name, shows the expiry date as MM/YY and MM/YYYY, and can reveal the CVV. A
revealed CVV hides again after a one-shot timer or a second click, and the
timer shows a "CVV hidden for security" toast. The Freeze, Replace and Cancel
buttons only show a toast. The **transactions page** lists the fetched
transactions. Search text is matched, ignoring case, against the cardholder and
the status. Five more criteria (status, minimum and maximum amount, start and
end date) are combined with AND. The result is shown ten rows to a page with
Previous/Next buttons and a "Showing a to b of n results" label.

The project models that logic in Dafny and proves what it promises:

- `js.dfy` (`Js`): the JavaScript built-ins the pages use, over Dafny sequences.
  These are `slice` with negative and out-of-range indices, `padStart`,
  `toLowerCase` (ASCII), `includes` and `String(n)`.
- `transactions.dfy` (`Transactions`): the record types, the six clauses,
  `filteredTransactions`, `getStatusColor`, and the laws of the filter
  (subsequence, membership, monotone bounds, case-insensitive search).
- `pagination.dfy` (`Pagination`): page count, the page slice, the label, and
  the clamped Previous/Next.
- `transactions_page.dfy` (`TransactionsPage`): the page state (fetched list,
  search text, filters, current page) as a class whose handlers change it.
- `card.dfy` (`Card`): the name formatter, the expiry date and the CVV mask.
- `cvv.dfy` (`Cvv`): the CVV reveal. `Step` is the effect of each event (click,
  timer firing, unmount, card action) on a state value, and its invariants and
  scenarios are proved as lemmas. The class `CardView` keeps the same state in
  fields (`showCVC`, the stored handle `cvvTimer`, the live timers `pending`,
  the toasts) and its methods are proved to follow `Step`.

Amounts are `real`. `parseFloat` and `new Date(...)` become functions given to
the model in a `Parsers` value. Timer firing is an event, not elapsed time.

Three behaviours of the code worth knowing:

- An amount or date field that does not parse is not ignored. In the code it
  gives NaN, and every comparison with NaN is false, so the clause rejects
  every record. The model cannot express this: `Parsers.number` and
  `Parsers.date` always return an ordered value, so a non-empty bound always
  lets through a record equal to it (see the `parseFloat` line under
  "## Left out").
- The date bounds come from `<input type="date">` fields
  (TransactionsPage.tsx:243-256), whose value is a "YYYY-MM-DD" string.
  `new Date` reads such a string as midnight UTC of that day, so the start
  bound admits the whole day (in UTC) and the end bound admits only records
  created at that midnight or earlier. The model compares the two parsed time
  values, as the code does.
- The page counter is not kept at 1 or above. When no record matches,
  `totalPages` is 0, and Next from page 1 moves to page 0. The label then
  reads "Showing -9 to 0 of 0 results" (`Pagination.NextOnEmptyResult`).

Two more things the code does, as modelled:

- With no card record, for example after a failed fetch, the card face shows
  the expiry "undefined/ed" and the detail list "undefined/"
  (`Card.ExpiryWithoutCard`).
- The status drop-down has no "Canceled" option (TransactionsPage.tsx:202-207).
  The status criterion still accepts any string.

## Model

| member | source | states |
|---|---|---|
| `Js.Slice` | src/pages/TransactionsPage.tsx:109-112 | `slice` takes the run starting at the clamped start index, of length clamped end minus clamped start (empty when that is not positive), element for element |
| `Js.ToLowerCase` | src/pages/TransactionsPage.tsx:82-83 | same length, no upper-case ASCII letter left, each upper-case letter moved to its lower-case partner and every other character unchanged |
| `Js.Includes` | src/pages/TransactionsPage.tsx:82-83 | the empty needle is always included, and a needle longer than the haystack never is |
| `Js.PadStart` | src/pages/CardPage.tsx:198 | the result has the requested width (or the input's, when it is longer), ends with the input, and is fill characters before it |
| `Js.IncludesIff` | src/pages/TransactionsPage.tsx:82-83 | `includes` holds exactly when the needle occurs at some position of the haystack |
| `Js.IncludesFound` | src/pages/TransactionsPage.tsx:82-83 | when `includes` holds, the needle occurs at some position (the "only if" half of `IncludesIff`) |
| `Js.IncludesOccurrence` | src/pages/TransactionsPage.tsx:82-83 | a needle occurring at some position is included (the "if" half of `IncludesIff`) |
| `Js.IncludesPrefixOfNeedle` | src/pages/TransactionsPage.tsx:82-83 | a haystack that includes a longer needle includes each prefix of it |
| `Js.NumberToString` | src/pages/CardPage.tsx:198-199 | `String(n)` is all digits, with no leading zero, one character exactly when n < 10, and ends with the unit digit |
| `Js.NumberToStringRoundTrip` | src/pages/CardPage.tsx:198-199 | reading back the digits of `String(n)` gives n |
| `Transactions.MatchesSearch` | src/pages/TransactionsPage.tsx:81-83 | the search clause: the lower-cased text occurs in the lower-cased cardholder or status name; an empty search matches every record |
| `Transactions.MatchesStatus` | src/pages/TransactionsPage.tsx:85-86 | the status clause: an empty criterion matches everything, and a criterion naming a status matches exactly the records of that status |
| `Transactions.MatchesMinAmount` | src/pages/TransactionsPage.tsx:87-88 | the minimum clause: empty, or the amount is at least the parsed minimum (no contract of its own; see `RaiseMinAmount`, `ExactAmountRange`) |
| `Transactions.MatchesMaxAmount` | src/pages/TransactionsPage.tsx:89-90 | the maximum clause: empty, or the amount is at most the parsed maximum (see `LowerMaxAmount`, `ExactAmountRange`) |
| `Transactions.MatchesStartDate` | src/pages/TransactionsPage.tsx:91-93 | the start clause: empty, or the record's parsed creation time is not before the parsed start (see `RaiseStartDate`, `ExactDateRange`) |
| `Transactions.MatchesEndDate` | src/pages/TransactionsPage.tsx:94-96 | the end clause: empty, or the record's parsed creation time is not after the parsed end (see `LowerEndDate`, `ExactDateRange`) |
| `Transactions.Keep` | src/pages/TransactionsPage.tsx:80-105 | the `filter` callback: the six clauses joined with AND (characterised by `FilteredMembership` and `FilteredCount`) |
| `Transactions.Filtered` | src/pages/TransactionsPage.tsx:80-106 | the filtered list is never longer than the fetched list, and every record in it passes all six clauses |
| `Transactions.FilteredIsSubsequence` | src/pages/TransactionsPage.tsx:80-106 | the filtered list is an order-preserving subsequence of the fetched list |
| `Transactions.FilteredMembership` | src/pages/TransactionsPage.tsx:80-106 | a record is listed if and only if it was fetched and passes search, status, min, max, start and end |
| `Transactions.FilteredCount` | src/pages/TransactionsPage.tsx:80-106 | a passing record appears in the result exactly as many times as in the fetched list, and a failing one not at all |
| `Transactions.FilteredAllPass` | src/pages/TransactionsPage.tsx:80-106 | when every record passes, the whole list is kept, unchanged |
| `Transactions.EmptyCriteriaKeepAll` | src/pages/TransactionsPage.tsx:81-96 | empty search and all-empty criteria keep every record |
| `Transactions.FilteredStronger` | src/pages/TransactionsPage.tsx:80-106 | criteria that pass fewer records give a subsequence of the list filtered by the weaker criteria |
| `Transactions.RaiseMinAmount` | src/pages/TransactionsPage.tsx:87-88 | setting or raising the minimum amount gives a subsequence, never a longer list |
| `Transactions.LowerMaxAmount` | src/pages/TransactionsPage.tsx:89-90 | setting or lowering the maximum amount gives a subsequence, never a longer list |
| `Transactions.RaiseStartDate` | src/pages/TransactionsPage.tsx:91-93 | setting or moving the start date later gives a subsequence, never a longer list |
| `Transactions.LowerEndDate` | src/pages/TransactionsPage.tsx:94-96 | setting or moving the end date earlier gives a subsequence, never a longer list |
| `Transactions.ExtendSearch` | src/pages/TransactionsPage.tsx:81-83 | typing more characters into the search box gives a subsequence of the current list |
| `Transactions.ExactAmountRange` | src/pages/TransactionsPage.tsx:87-90 | bounds are inclusive: min = max = v lists exactly the records whose amount is v |
| `Transactions.ExactDateRange` | src/pages/TransactionsPage.tsx:91-96 | bounds are inclusive: start = end = v lists exactly the records created at v |
| `Transactions.SearchCaseInsensitive` | src/pages/TransactionsPage.tsx:81-83 | two search texts with the same lower-case form give the same list |
| `Transactions.SubsequenceLength` | src/pages/TransactionsPage.tsx:80-106 | a general fact about subsequences, used for the "never a longer list" halves: a subsequence is never longer than the sequence it is taken from |
| `Transactions.SubsequenceAntisymmetric` | src/pages/TransactionsPage.tsx:80-106 | a general fact about subsequences, used for `SearchCaseInsensitive`: two sequences that are subsequences of each other are equal |
| `Transactions.SearchSuccFindsSucceeded` | src/pages/TransactionsPage.tsx:81-83 | "SUCC", "succ" and "Succ" all match a Succeeded record |
| `Transactions.StatusIsExact` | src/pages/TransactionsPage.tsx:85-86 | with a status criterion, every listed record has exactly that status name, and "succeeded" (lower case) lists nothing |
| `Transactions.StatusColor` | src/pages/TransactionsPage.tsx:66-76 | the colour is one of the table's classes or the gray default |
| `Transactions.StatusColorGrayIff` | src/pages/TransactionsPage.tsx:66-76 | the colour is gray if and only if the status is "Canceled" or no status at all |
| `Transactions.StatusColorOfStatus` | src/pages/TransactionsPage.tsx:66-76 | each of the six statuses gets its own table entry, and only Canceled is gray |
| `Pagination.TotalPages` | src/pages/TransactionsPage.tsx:114 | the page count is the ceiling of n/10: the pages hold all n records and the last page is not empty |
| `Pagination.Page` | src/pages/TransactionsPage.tsx:109-112 | `paginatedTransactions`: at most ten records, none on page 0, and the k-th row is record (p-1)*10+k of the filtered list |
| `Pagination.PageIsSlice` | src/pages/TransactionsPage.tsx:109-112 | page p is `filtered[(p-1)*10 .. min(p*10, n)]`, holds at most 10 records, and page 0 is empty |
| `Pagination.PageNonEmpty` | src/pages/TransactionsPage.tsx:109-114 | a page from 1 holds a record if and only if it is at most the page count |
| `Pagination.PagesArePrefix` | src/pages/TransactionsPage.tsx:109-112 | pages 1..k together are the first min(10k, n) records |
| `Pagination.PagesReassemble` | src/pages/TransactionsPage.tsx:109-114 | pages 1..ceil(n/10) concatenated give back the filtered list exactly, in order |
| `Pagination.ResultsLabel` | src/pages/TransactionsPage.tsx:379-381 | the label carries the total, never names a row past it, starts at 1 or later from page 1, and never spans more than ten rows |
| `Pagination.LabelMatchesPage` | src/pages/TransactionsPage.tsx:379-381 | on an existing page, first and last are the positions of the page's first and last rows, so last - first + 1 is the page length |
| `Pagination.TwentyThreeRecords` | src/pages/TransactionsPage.tsx:109-114 | 23 records make 3 pages; page 1 is records 1-10, page 3 is records 21-23, labelled "21 to 23 of 23" |
| `Pagination.PrevPage` | src/pages/TransactionsPage.tsx:390 | Previous never goes below page 1 and otherwise goes back one page |
| `Pagination.NextPage` | src/pages/TransactionsPage.tsx:400 | Next never exceeds the page count and otherwise goes forward one page |
| `Pagination.ButtonsStayInRange` | src/pages/TransactionsPage.tsx:390-402 | from a page in range both buttons stay in range; Previous at page 1 and Next at the last page stay put, and the two undo each other |
| `Pagination.NextOnEmptyResult` | src/pages/TransactionsPage.tsx:379-400 | with no result there are 0 pages, Next from page 1 gives page 0, and the labels read "1 to 0 of 0" and "-9 to 0 of 0" |
| `TransactionsPage.WithField` | src/pages/TransactionsPage.tsx:199-255 | field by field: the chosen field becomes the new text and each of the other four keeps its old text |
| `TransactionsPage.WithFieldReadBack` | src/pages/TransactionsPage.tsx:199-255 | a written field reads back the new text, writing a field's own text changes nothing, and a later write to the same field replaces an earlier one |
| `TransactionsPage.TransactionsView.constructor` | src/pages/TransactionsPage.tsx:12-24 | the page starts with no records, page 1, empty search and empty criteria |
| `TransactionsPage.TransactionsView.Results` | src/pages/TransactionsPage.tsx:80-106 | `filteredTransactions` of the current state: an order-preserving subsequence of the fetched list whose every record passes the current search and criteria |
| `TransactionsPage.TransactionsView.Visible` | src/pages/TransactionsPage.tsx:109-112 | `paginatedTransactions`: at most ten rows, each passing the current search and criteria |
| `TransactionsPage.TransactionsView.PageCount` | src/pages/TransactionsPage.tsx:114 | `totalPages`: enough pages for all results, and 0 exactly when nothing matches |
| `TransactionsPage.TransactionsView.FetchSettled` | src/pages/TransactionsPage.tsx:36-47 | a successful fetch sets the list; a failed one leaves it unchanged; nothing else changes |
| `TransactionsPage.TransactionsView.SetSearch` | src/pages/TransactionsPage.tsx:165 | the search text changes, and the criteria and the page do not |
| `TransactionsPage.TransactionsView.SetFilter` | src/pages/TransactionsPage.tsx:199-255 | one criterion changes, and the search text and the page do not |
| `TransactionsPage.TransactionsView.ResetFilters` | src/pages/TransactionsPage.tsx:126-134 | all five criteria become empty, and the search text and the page do not change |
| `TransactionsPage.TransactionsView.Prev` | src/pages/TransactionsPage.tsx:390 | the page becomes max(1, p-1), and nothing else changes |
| `TransactionsPage.TransactionsView.Next` | src/pages/TransactionsPage.tsx:400 | the page becomes min(totalPages, p+1) and is at most the page count, and nothing else changes |
| `TransactionsPage.TransactionsView.ShowingLabel` | src/pages/TransactionsPage.tsx:379-381 | the label for the current state; on a page in range it counts exactly the visible rows |
| `TransactionsPage.FailedFetchShowsNothing` | src/pages/TransactionsPage.tsx:36-47 | after a failed fetch the table has no rows and no pages |
| `Card.FormatName` | src/pages/CardPage.tsx:92 | the regex replace never shortens the name and keeps its first character (the full characterisation is `FormatNameIsSpaced`) |
| `Card.FormatNameIsSpaced` | src/pages/CardPage.tsx:92 | the regex replace equals the reference definition: one space after each lower-case letter that is followed by an upper-case letter, nothing else changed |
| `Card.FormatNameLength` | src/pages/CardPage.tsx:92 | the formatted name is longer by exactly the number of boundaries |
| `Card.FormatNameNoBoundary` | src/pages/CardPage.tsx:92 | a formatted name has no lower-to-upper boundary left |
| `Card.FormatNameUnchanged` | src/pages/CardPage.tsx:92 | a name with no boundary is returned unchanged |
| `Card.FormatNameIdempotent` | src/pages/CardPage.tsx:92 | formatting twice equals formatting once |
| `Card.FormatNameRoundTrip` | src/pages/CardPage.tsx:92 | deleting the spaces that stand between a lower-case and an upper-case letter restores any name that had no such space |
| `Card.TwoPartName` | src/pages/CardPage.tsx:92 | two boundary-free parts joined at a lower-to-upper boundary come out separated by one space |
| `Card.NameExamples` | src/pages/CardPage.tsx:92 | "JohnSmith" becomes "John Smith", and "johnsmith" is unchanged |
| `Card.FormattedName` | src/pages/CardPage.tsx:91-92 | no card gives ""; otherwise the result is the spaced name (so an empty name gives "") |
| `Card.MonthText` | src/pages/CardPage.tsx:198 | the month text has at least two digits and reads back as the month; without a card it is "undefined" |
| `Card.ShortExpiry` | src/pages/CardPage.tsx:198-199 | the card face shows the month text, "/", and the year modulo 100 in two digits (the year itself when it has one digit) |
| `Card.LongExpiry` | src/pages/CardPage.tsx:282 | the detail list shows the month text, "/", and digits that read back as the full year; without a card, "undefined/" |
| `Card.MonthPadding` | src/pages/CardPage.tsx:198 | months 1-9 gain a leading "0", and a two-digit month is unchanged |
| `Card.ShortYearIsLastTwoDigits` | src/pages/CardPage.tsx:199 | `slice(-2)` of a year with two or more digits is year mod 100, written with two digits |
| `Card.ShortExpiryExample` | src/pages/CardPage.tsx:198-199 | March 2027 shows "03/27" on the card face |
| `Card.LongExpiryExample` | src/pages/CardPage.tsx:282 | March 2027 shows "03/2027" in the details |
| `Card.ExpiryWithoutCard` | src/pages/CardPage.tsx:198-199 | without a card record the face (lines 198-199) shows "undefined/ed" and the details (line 282) show "undefined/" |
| `Card.DisplayedCvv` | src/pages/CardPage.tsx:206 | revealed shows the card's CVV (nothing without a card); hidden always shows the three-dot mask |
| `Cvv.Step` | src/pages/CardPage.tsx:61-110 | the effect of one event: toasts are only appended, at most one per event; the only timer that can start has the next handle; handles only grow; an unmounted page never mounts again |
| `Cvv.InitialInv` | src/pages/CardPage.tsx:36-37 | the mounted page starts hidden with no timer, and the invariant holds |
| `Cvv.StepInv` | src/pages/CardPage.tsx:61-88 | every event keeps the invariant: at most one pending timer, and it is the stored one; shown iff a timer is pending while mounted; none pending after unmount |
| `Cvv.RunInv` | src/pages/CardPage.tsx:61-88 | the invariant, and at most one pending timer, hold after any sequence of events |
| `Cvv.ToggleReveals` | src/pages/CardPage.tsx:62-72 | toggling while hidden reveals, leaves exactly the new timer pending, stores its handle, and shows no toast |
| `Cvv.ToggleHides` | src/pages/CardPage.tsx:73-77 | toggling while revealed hides, leaves no timer pending, and shows no toast |
| `Cvv.FireHides` | src/pages/CardPage.tsx:65-70 | the pending timer firing hides the CVV and shows exactly one "CVV hidden" toast |
| `Cvv.CancelledNeverFires` | src/pages/CardPage.tsx:75-77 | a handle that is not pending never becomes pending again, and its firing changes nothing |
| `Cvv.RevealThenHideIsSilent` | src/pages/CardPage.tsx:61-79 | reveal then hide before the timer fires: no toast, and the old timer firing later does nothing |
| `Cvv.RevealThenExpire` | src/pages/CardPage.tsx:61-72 | reveal and let the timer fire: hidden again with exactly one more "CVV hidden" toast |
| `Cvv.UnmountSilences` | src/pages/CardPage.tsx:82-88 | unmount cancels any pending timer, and no later event changes anything |
| `Cvv.UnmountSilencesFrom` | src/pages/CardPage.tsx:82-88 | an unmounted page with no pending timer stays as it is, whatever happens |
| `Cvv.CardActionsOnlyNotify` | src/pages/CardPage.tsx:94-110 | Freeze, Cancel and Replace add one toast that is not "CVV hidden", and change nothing else |
| `Cvv.DisplayFollowsState` | src/pages/CardPage.tsx:251 | while mounted, the CVV is shown exactly while a timer is pending, and the mask otherwise |
| `Cvv.HiddenNoticesAppend` | src/pages/CardPage.tsx:67-69 | the number of "CVV hidden" toasts adds up over appended toast lists |
| `Cvv.CardView.constructor` | src/pages/CardPage.tsx:33-37 | the view starts in the initial state with the given card, and the invariant holds |
| `Cvv.CardView.Cvv` | src/pages/CardPage.tsx:251 | the CVV cell: the mask while hidden, and, on a valid mounted view with a card, the card's CVV exactly while a timer is pending |
| `Cvv.CardView.ToggleCvc` | src/pages/CardPage.tsx:61-88 | the fields follow `Step` on a click: the flag flips, no toast is shown, at most one timer is pending |
| `Cvv.CardView.Fire` | src/pages/CardPage.tsx:65-70 | a pending timer hides the CVV and adds the toast; any other firing changes nothing |
| `Cvv.CardView.Unmount` | src/pages/CardPage.tsx:82-88 | unmount leaves no timer pending |
| `Cvv.CardView.CardAction` | src/pages/CardPage.tsx:94-110 | a card action follows `Step` and leaves the CVV flag, the stored handle and the timers unchanged |

## Left out

- Network fetches (`fetch`, `axios`), the loading and skeleton flags, and the
  one-second page spinner: these are I/O and timing. The fetch result is a
  parameter (`FetchSettled`, the `card` of `CardView`). A failed fetch is just
  an empty list, or no card.
- PNG export of the table (`html2canvas`): a DOM rendering call outside the logic.
- `parseFloat` and `new Date(...)`: given functions in `Parsers` that always
  return an ordered value. NaN from a bad input is not modelled, so the model
  cannot express a bound that does not parse and rejects every record.
- `toLocaleDateString` / `toLocaleString`: these depend on the locale and on
  floating point.
- Real time: the 10-second delay is not modelled. A timer fires when the event
  `TimerFire(id)` comes.
- React semantics: stale closures, batching and re-rendering are not modelled.
  Each event sees the state left by the one before it. The `cvvTimer` effect
  cleanup is folded into `Toggle` and `Unmount`.
- Toast text and styling: a toast is one of four values.
- `Js.ToLowerCase`: covers the ASCII letters only, not the full Unicode case
  mapping of `toLowerCase`.
- `Transactions.StatusColor`: does not model JavaScript object-prototype
  lookups. A status such as "constructor" would read an inherited member in
  the source.
- `Card.CardRecord`: expiry month and year are non-negative integers, so
  `String` of a negative or fractional number is not modelled.
- Navigation, routing and the not-found page: markup only, with no logic to
  model.
