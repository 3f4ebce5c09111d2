/**
 * The transaction records of the transactions page and the predicate that
 * decides which of them the table lists: a search text matched without regard
 * to case against the cardholder and the status, and five structured criteria
 * (status, minimum and maximum amount, start and end date), all combined with
 * AND. A criterion whose text is empty imposes nothing.
 */
module Transactions {
  import opened Js

  datatype Status = Succeeded | Pending | Canceled | Failed | Refunded | Disputed

  /** The status as it appears in the fetched JSON and in the table. */
  function StatusName(s: Status): string
  {
    match s
    case Succeeded => "Succeeded"
    case Pending => "Pending"
    case Canceled => "Canceled"
    case Failed => "Failed"
    case Refunded => "Refunded"
    case Disputed => "Disputed"
  }

  /** A fetched record. The amount is kept as an abstract ordered value and the
      creation time as the text the endpoint sends. */
  datatype Transaction = Transaction(
    amount: real,
    currency: string,
    cardholder: string,
    status: Status,
    created: string)

  /** The five structured criteria, each as the text of its input field. */
  datatype Filters = Filters(
    status: string,
    minAmount: string,
    maxAmount: string,
    startDate: string,
    endDate: string)

  /** The initial criteria, and what "Reset Filters" restores. */
  const NoFilters := Filters("", "", "", "", "")

  /** `parseFloat` on an amount field and `new Date(...)` (as its time value) on
      a date field or a record's creation time. Both are given, not modelled. */
  datatype Parsers = Parsers(number: string -> real, date: string -> int)

  // ---------------------------------------------------------------------------
  // The six clauses

  /** The search box: the lower-cased text occurs in the lower-cased
      cardholder or status name; an empty text matches every record. */
  predicate MatchesSearch(t: Transaction, search: string): (r: bool)
    ensures search == "" ==> r
  {
    assert search == "" ==> ToLowerCase(search) == "";
    var needle := ToLowerCase(search);
    Includes(ToLowerCase(t.cardholder), needle) || Includes(ToLowerCase(StatusName(t.status)), needle)
  }

  /** The status criterion compares the name exactly, so a criterion that is
      a status name selects exactly that status. */
  predicate MatchesStatus(t: Transaction, f: Filters): (r: bool)
    ensures f.status == "" ==> r
    ensures forall st :: f.status == StatusName(st) ==> (r <==> t.status == st)
  {
    f.status == "" || StatusName(t.status) == f.status
  }

  predicate MatchesMinAmount(t: Transaction, f: Filters, p: Parsers)
  {
    f.minAmount == "" || t.amount >= p.number(f.minAmount)
  }

  predicate MatchesMaxAmount(t: Transaction, f: Filters, p: Parsers)
  {
    f.maxAmount == "" || t.amount <= p.number(f.maxAmount)
  }

  predicate MatchesStartDate(t: Transaction, f: Filters, p: Parsers)
  {
    f.startDate == "" || p.date(t.created) >= p.date(f.startDate)
  }

  predicate MatchesEndDate(t: Transaction, f: Filters, p: Parsers)
  {
    f.endDate == "" || p.date(t.created) <= p.date(f.endDate)
  }

  /** The callback given to `transactions.filter`. */
  predicate Keep(t: Transaction, search: string, f: Filters, p: Parsers)
  {
    && MatchesSearch(t, search)
    && MatchesStatus(t, f)
    && MatchesMinAmount(t, f, p)
    && MatchesMaxAmount(t, f, p)
    && MatchesStartDate(t, f, p)
    && MatchesEndDate(t, f, p)
  }

  /** `filteredTransactions`: the records that pass, in their original order. */
  function Filtered(ts: seq<Transaction>, search: string, f: Filters, p: Parsers): (r: seq<Transaction>)
    ensures |r| <= |ts|
    ensures forall i :: 0 <= i < |r| ==> Keep(r[i], search, f, p)
  {
    if ts == [] then []
    else (if Keep(ts[0], search, f, p) then [ts[0]] else []) + Filtered(ts[1..], search, f, p)
  }

  // ---------------------------------------------------------------------------
  // Order-preserving subsequences

  /** `xs` is obtained from `ys` by deleting elements, keeping the order. */
  predicate Subsequence<T(==)>(xs: seq<T>, ys: seq<T>)
    decreases |ys|
  {
    xs == [] ||
    (ys != [] && ((xs[0] == ys[0] && Subsequence(xs[1..], ys[1..])) || Subsequence(xs, ys[1..])))
  }

  lemma {:induction false} SubsequenceLength<T>(xs: seq<T>, ys: seq<T>)
    requires Subsequence(xs, ys)
    ensures |xs| <= |ys|
    decreases |ys|
  {
    if xs != [] {
      if xs[0] == ys[0] && Subsequence(xs[1..], ys[1..]) {
        SubsequenceLength(xs[1..], ys[1..]);
      } else {
        SubsequenceLength(xs, ys[1..]);
      }
    }
  }

  // ---------------------------------------------------------------------------
  // Properties of the filter

  /** The filtered list is an order-preserving subsequence of the fetched list. */
  lemma {:induction false} FilteredIsSubsequence(ts: seq<Transaction>, search: string, f: Filters, p: Parsers)
    ensures Subsequence(Filtered(ts, search, f, p), ts)
  {
    if ts != [] {
      FilteredIsSubsequence(ts[1..], search, f, p);
      var rest := Filtered(ts[1..], search, f, p);
      if Keep(ts[0], search, f, p) {
        assert Filtered(ts, search, f, p) == [ts[0]] + rest;
        assert ([ts[0]] + rest)[1..] == rest;
      } else {
        assert Filtered(ts, search, f, p) == rest;
        assert rest == [] || Subsequence(rest, ts[1..]);
      }
    }
  }

  /** A record is listed exactly when it is fetched and passes all six clauses. */
  lemma {:induction false} FilteredMembership(ts: seq<Transaction>, search: string, f: Filters, p: Parsers, t: Transaction)
    ensures t in Filtered(ts, search, f, p) <==> t in ts && Keep(t, search, f, p)
  {
    if ts != [] {
      FilteredMembership(ts[1..], search, f, p, t);
      assert ts == [ts[0]] + ts[1..];
    }
  }

  /** A record that passes is kept as many times as it was fetched; one that
      fails is dropped every time. */
  lemma {:induction false} FilteredCount(ts: seq<Transaction>, search: string, f: Filters, p: Parsers, t: Transaction)
    ensures multiset(Filtered(ts, search, f, p))[t] == if Keep(t, search, f, p) then multiset(ts)[t] else 0
  {
    if ts != [] {
      FilteredCount(ts[1..], search, f, p, t);
      assert ts == [ts[0]] + ts[1..];
      assert multiset(ts) == multiset([ts[0]]) + multiset(ts[1..]);
      var head := if Keep(ts[0], search, f, p) then [ts[0]] else [];
      assert multiset(Filtered(ts, search, f, p)) == multiset(head) + multiset(Filtered(ts[1..], search, f, p));
    }
  }

  /** When every record passes, the filter keeps the whole list. */
  lemma {:induction false} FilteredAllPass(ts: seq<Transaction>, search: string, f: Filters, p: Parsers)
    requires forall i :: 0 <= i < |ts| ==> Keep(ts[i], search, f, p)
    ensures Filtered(ts, search, f, p) == ts
  {
    if ts != [] {
      FilteredAllPass(ts[1..], search, f, p);
      assert [ts[0]] + ts[1..] == ts;
    }
  }

  /** With an empty search and every criterion empty, nothing is filtered out. */
  lemma EmptyCriteriaKeepAll(ts: seq<Transaction>, p: Parsers)
    ensures Filtered(ts, "", NoFilters, p) == ts
  {
    forall i | 0 <= i < |ts| ensures Keep(ts[i], "", NoFilters, p) {
    }
    FilteredAllPass(ts, "", NoFilters, p);
  }

  /** If every record that passes `f2` also passes `f1`, then the list filtered
      by `f2` is a subsequence of the list filtered by `f1`. */
  lemma {:induction false} FilteredStronger(ts: seq<Transaction>, s1: string, f1: Filters, s2: string, f2: Filters, p: Parsers)
    requires forall t :: Keep(t, s2, f2, p) ==> Keep(t, s1, f1, p)
    ensures Subsequence(Filtered(ts, s2, f2, p), Filtered(ts, s1, f1, p))
  {
    if ts != [] {
      FilteredStronger(ts[1..], s1, f1, s2, f2, p);
      var r1, r2 := Filtered(ts[1..], s1, f1, p), Filtered(ts[1..], s2, f2, p);
      if Keep(ts[0], s2, f2, p) {
        assert Filtered(ts, s2, f2, p) == [ts[0]] + r2;
        assert Filtered(ts, s1, f1, p) == [ts[0]] + r1;
        assert ([ts[0]] + r2)[1..] == r2 && ([ts[0]] + r1)[1..] == r1;
      } else if Keep(ts[0], s1, f1, p) {
        assert Filtered(ts, s2, f2, p) == r2;
        assert Filtered(ts, s1, f1, p) == [ts[0]] + r1;
        assert ([ts[0]] + r1)[1..] == r1;
        assert r2 == [] || Subsequence(r2, ([ts[0]] + r1)[1..]);
      } else {
        assert Filtered(ts, s2, f2, p) == r2;
        assert Filtered(ts, s1, f1, p) == r1;
      }
    }
  }

  /** Raising the minimum amount (or setting one where there was none) never
      adds a record to the list. */
  lemma RaiseMinAmount(ts: seq<Transaction>, search: string, f: Filters, p: Parsers, v: string)
    requires v != ""
    requires f.minAmount == "" || p.number(f.minAmount) <= p.number(v)
    ensures Subsequence(Filtered(ts, search, f.(minAmount := v), p), Filtered(ts, search, f, p))
    ensures |Filtered(ts, search, f.(minAmount := v), p)| <= |Filtered(ts, search, f, p)|
  {
    FilteredStronger(ts, search, f, search, f.(minAmount := v), p);
    SubsequenceLength(Filtered(ts, search, f.(minAmount := v), p), Filtered(ts, search, f, p));
  }

  /** Lowering the maximum amount (or setting one) never adds a record. */
  lemma LowerMaxAmount(ts: seq<Transaction>, search: string, f: Filters, p: Parsers, v: string)
    requires v != ""
    requires f.maxAmount == "" || p.number(v) <= p.number(f.maxAmount)
    ensures Subsequence(Filtered(ts, search, f.(maxAmount := v), p), Filtered(ts, search, f, p))
    ensures |Filtered(ts, search, f.(maxAmount := v), p)| <= |Filtered(ts, search, f, p)|
  {
    FilteredStronger(ts, search, f, search, f.(maxAmount := v), p);
    SubsequenceLength(Filtered(ts, search, f.(maxAmount := v), p), Filtered(ts, search, f, p));
  }

  /** Moving the start date later (or setting one) never adds a record. */
  lemma RaiseStartDate(ts: seq<Transaction>, search: string, f: Filters, p: Parsers, v: string)
    requires v != ""
    requires f.startDate == "" || p.date(f.startDate) <= p.date(v)
    ensures Subsequence(Filtered(ts, search, f.(startDate := v), p), Filtered(ts, search, f, p))
    ensures |Filtered(ts, search, f.(startDate := v), p)| <= |Filtered(ts, search, f, p)|
  {
    FilteredStronger(ts, search, f, search, f.(startDate := v), p);
    SubsequenceLength(Filtered(ts, search, f.(startDate := v), p), Filtered(ts, search, f, p));
  }

  /** Moving the end date earlier (or setting one) never adds a record. */
  lemma LowerEndDate(ts: seq<Transaction>, search: string, f: Filters, p: Parsers, v: string)
    requires v != ""
    requires f.endDate == "" || p.date(v) <= p.date(f.endDate)
    ensures Subsequence(Filtered(ts, search, f.(endDate := v), p), Filtered(ts, search, f, p))
    ensures |Filtered(ts, search, f.(endDate := v), p)| <= |Filtered(ts, search, f, p)|
  {
    FilteredStronger(ts, search, f, search, f.(endDate := v), p);
    SubsequenceLength(Filtered(ts, search, f.(endDate := v), p), Filtered(ts, search, f, p));
  }

  /** Typing more characters into the search box never adds a record. */
  lemma ExtendSearch(ts: seq<Transaction>, search: string, more: string, f: Filters, p: Parsers)
    ensures Subsequence(Filtered(ts, search + more, f, p), Filtered(ts, search, f, p))
  {
    forall t | Keep(t, search + more, f, p) ensures Keep(t, search, f, p) {
      ToLowerCaseAppend(search, more);
      if Includes(ToLowerCase(t.cardholder), ToLowerCase(search + more)) {
        IncludesPrefixOfNeedle(ToLowerCase(t.cardholder), ToLowerCase(search), ToLowerCase(more));
      } else {
        IncludesPrefixOfNeedle(ToLowerCase(StatusName(t.status)), ToLowerCase(search), ToLowerCase(more));
      }
    }
    FilteredStronger(ts, search, f, search + more, f, p);
  }

  /** The bounds are inclusive: with only the amount range set, to the same
      value at both ends, exactly the records of that amount are listed. */
  lemma ExactAmountRange(ts: seq<Transaction>, p: Parsers, v: string, t: Transaction)
    requires v != ""
    ensures t in Filtered(ts, "", NoFilters.(minAmount := v, maxAmount := v), p)
        <==> t in ts && t.amount == p.number(v)
  {
    assert MatchesSearch(t, "");
    FilteredMembership(ts, "", NoFilters.(minAmount := v, maxAmount := v), p, t);
  }

  /** The bounds are inclusive: with only the date range set, to the same
      day at both ends, exactly the records created at that instant are listed. */
  lemma ExactDateRange(ts: seq<Transaction>, p: Parsers, v: string, t: Transaction)
    requires v != ""
    ensures t in Filtered(ts, "", NoFilters.(startDate := v, endDate := v), p)
        <==> t in ts && p.date(t.created) == p.date(v)
  {
    assert MatchesSearch(t, "");
    FilteredMembership(ts, "", NoFilters.(startDate := v, endDate := v), p, t);
  }

  /** Search ignores the case of the search text. */
  lemma SearchCaseInsensitive(ts: seq<Transaction>, s1: string, s2: string, f: Filters, p: Parsers)
    requires ToLowerCase(s1) == ToLowerCase(s2)
    ensures Filtered(ts, s1, f, p) == Filtered(ts, s2, f, p)
  {
    FilteredStronger(ts, s1, f, s2, f, p);
    FilteredStronger(ts, s2, f, s1, f, p);
    SubsequenceAntisymmetric(Filtered(ts, s1, f, p), Filtered(ts, s2, f, p));
  }

  lemma {:induction false} SubsequenceAntisymmetric<T>(xs: seq<T>, ys: seq<T>)
    requires Subsequence(xs, ys) && Subsequence(ys, xs)
    ensures xs == ys
    decreases |ys|
  {
    SubsequenceLength(xs, ys);
    SubsequenceLength(ys, xs);
    if xs != [] {
      if xs[0] == ys[0] && Subsequence(xs[1..], ys[1..]) {
        SubsequenceLength(ys[1..], xs[1..]) by { SubsequenceDropBoth(ys, xs); }
        SubsequenceAntisymmetric(xs[1..], ys[1..]) by { SubsequenceDropBoth(ys, xs); }
      } else {
        SubsequenceLength(xs, ys[1..]);
      }
    }
  }

  /** Two equal-length sequences, one a subsequence of the other, agree at the head. */
  lemma SubsequenceDropBoth<T>(ys: seq<T>, xs: seq<T>)
    requires Subsequence(ys, xs) && |xs| == |ys| && xs != []
    ensures ys[0] == xs[0] && Subsequence(ys[1..], xs[1..])
  {
    if !(ys[0] == xs[0] && Subsequence(ys[1..], xs[1..])) {
      SubsequenceLength(ys, xs[1..]);
    }
  }

  /** Searching in any case of "succ" finds a succeeded record. */
  lemma SearchSuccFindsSucceeded(t: Transaction)
    requires t.status == Succeeded
    ensures MatchesSearch(t, "SUCC") && MatchesSearch(t, "succ") && MatchesSearch(t, "Succ")
  {
    assert ToLowerCase("SUCC") == ToLowerCase("Succ") == "succ";
    assert ToLowerCase("Succeeded") == "succeeded";
    assert "succ" <= "succeeded";
  }

  /** The status criterion is an exact, case-sensitive comparison: every listed
      record carries exactly that status name, and a lower-case name such as
      "succeeded" lists nothing. */
  lemma StatusIsExact(ts: seq<Transaction>, search: string, f: Filters, p: Parsers)
    requires f.status != ""
    ensures forall i :: 0 <= i < |Filtered(ts, search, f, p)| ==> StatusName(Filtered(ts, search, f, p)[i].status) == f.status
    ensures f.status == "succeeded" ==> Filtered(ts, search, f, p) == []
  {
  }

  // ---------------------------------------------------------------------------
  // getStatusColor

  const Gray := "bg-gray-100 text-gray-800"

  /** The colour table of `getStatusColor`. */
  const StatusColors: map<string, string> := map[
    "Succeeded" := "bg-green-100 text-green-800",
    "Pending" := "bg-yellow-100 text-yellow-800",
    "Canceled" := "bg-gray-100 text-gray-800",
    "Failed" := "bg-red-100 text-red-800",
    "Refunded" := "bg-purple-100 text-purple-800",
    "Disputed" := "bg-orange-100 text-orange-800"]

  /** `getStatusColor`: the listed classes, gray for anything else. */
  function StatusColor(status: string): (r: string)
    ensures r in StatusColors.Values || r == Gray
  {
    if status in StatusColors && StatusColors[status] != "" then StatusColors[status] else Gray
  }

  /** Each of the six statuses has an entry, and only "Canceled" among them
      shares the default gray with the unknown names. */
  lemma StatusColorGrayIff(status: string)
    ensures StatusColor(status) == Gray <==> status == "Canceled" || forall s: Status :: StatusName(s) != status
  {
    if status in StatusColors && status != "Canceled" {
      var s := if status == "Succeeded" then Succeeded else if status == "Pending" then Pending
               else if status == "Failed" then Failed else if status == "Refunded" then Refunded else Disputed;
      assert StatusName(s) == status;
    }
  }

  /** The colour of every status is its own entry from the table. */
  lemma StatusColorOfStatus(s: Status)
    ensures StatusColor(StatusName(s)) == StatusColors[StatusName(s)]
    ensures s != Canceled ==> StatusColor(StatusName(s)) != Gray
  {
  }
}
