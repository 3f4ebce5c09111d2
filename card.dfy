/**
 * What the card page derives from the fetched card record: the cardholder
 * name with spaces put back between its parts, the expiry date in its short
 * (MM/YY) and long (MM/YYYY) forms, and the CVV, masked unless revealed.
 */
module Card {
  import opened Js

  /** The fetched card record. */
  datatype CardRecord = CardRecord(
    cardholderName: string,
    last4: string,
    expiryMonth: nat,
    expiryYear: nat,
    cvc: string,
    brand: string)

  // ---------------------------------------------------------------------------
  // Cardholder name: replace(/([a-z])([A-Z])/g, "$1 $2")

  predicate IsLower(c: char) { 'a' <= c <= 'z' }
  predicate IsUpper(c: char) { 'A' <= c <= 'Z' }

  /** A lower-case letter immediately followed by an upper-case one. */
  predicate Boundary(a: char, b: char) { IsLower(a) && IsUpper(b) }

  /** The global regular-expression replace: scanning left to right, each
      match of a lower-case letter followed by an upper-case letter becomes
      the two letters with a space between, and the scan resumes after the
      match. */
  function FormatName(s: string): (r: string)
    ensures |r| >= |s|
    ensures s != [] ==> r != [] && r[0] == s[0]
    decreases |s|
  {
    if |s| >= 2 && Boundary(s[0], s[1]) then [s[0], ' ', s[1]] + FormatName(s[2..])
    else if s == [] then []
    else [s[0]] + FormatName(s[1..])
  }

  /** Reference definition: each character, followed by one space exactly when
      it and the next character form a boundary. */
  function Spaced(s: string): string
    decreases |s|
  {
    if |s| <= 1 then s
    else [s[0]] + (if Boundary(s[0], s[1]) then " " else "") + Spaced(s[1..])
  }

  /** The regex replace inserts exactly one space at every lower-to-upper
      boundary and changes nothing else. */
  lemma {:induction false} FormatNameIsSpaced(s: string)
    ensures FormatName(s) == Spaced(s)
    decreases |s|
  {
    if |s| >= 2 && Boundary(s[0], s[1]) {
      FormatNameIsSpaced(s[2..]);
      assert s[1..][1..] == s[2..];
      if |s| == 2 {
        assert Spaced(s[1..]) == [s[1]];
      } else {
        assert Spaced(s[1..]) == [s[1]] + Spaced(s[2..]);
      }
    } else if s != [] {
      FormatNameIsSpaced(s[1..]);
    }
  }

  /** The number of boundaries in `s`. */
  function Boundaries(s: string): nat
    decreases |s|
  {
    if |s| <= 1 then 0 else (if Boundary(s[0], s[1]) then 1 else 0) + Boundaries(s[1..])
  }

  /** The formatted name is longer by one character per boundary. */
  lemma {:induction false} FormatNameLength(s: string)
    ensures |FormatName(s)| == |s| + Boundaries(s)
    decreases |s|
  {
    if |s| >= 2 && Boundary(s[0], s[1]) {
      FormatNameLength(s[2..]);
      assert s[1..][1..] == s[2..];
      assert !Boundary(s[1], if |s| > 2 then s[2] else ' ');
      assert Boundaries(s) == 1 + Boundaries(s[2..]);
    } else if s != [] {
      FormatNameLength(s[1..]);
    }
  }

  /** `s` has no lower-to-upper boundary. */
  ghost predicate NoBoundary(s: string)
  {
    forall i :: 0 <= i < |s| - 1 ==> !Boundary(s[i], s[i + 1])
  }

  /** A formatted name has no boundary left. */
  lemma {:induction false} FormatNameNoBoundary(s: string)
    ensures NoBoundary(FormatName(s))
    decreases |s|
  {
    if |s| >= 2 && Boundary(s[0], s[1]) {
      FormatNameNoBoundary(s[2..]);
      var r := FormatName(s[2..]);
      assert FormatName(s) == [s[0], ' ', s[1]] + r;
      forall i | 0 <= i < |FormatName(s)| - 1 ensures !Boundary(FormatName(s)[i], FormatName(s)[i + 1]) {
        if i >= 3 {
          assert FormatName(s)[i] == r[i - 3] && FormatName(s)[i + 1] == r[i - 2];
        }
      }
    } else if s != [] {
      FormatNameNoBoundary(s[1..]);
      var r := FormatName(s[1..]);
      assert FormatName(s) == [s[0]] + r;
      forall i | 0 <= i < |FormatName(s)| - 1 ensures !Boundary(FormatName(s)[i], FormatName(s)[i + 1]) {
        if i >= 1 {
          assert FormatName(s)[i] == r[i - 1] && FormatName(s)[i + 1] == r[i];
        }
      }
    }
  }

  /** A name with no boundary, such as "johnsmith", is returned unchanged. */
  lemma {:induction false} FormatNameUnchanged(s: string)
    requires NoBoundary(s)
    ensures FormatName(s) == s
    decreases |s|
  {
    if s != [] {
      assert !(|s| >= 2 && Boundary(s[0], s[1]));
      assert NoBoundary(s[1..]) by {
        forall i | 0 <= i < |s[1..]| - 1 ensures !Boundary(s[1..][i], s[1..][i + 1]) {
          assert s[1..][i] == s[i + 1] && s[1..][i + 1] == s[i + 2];
        }
      }
      FormatNameUnchanged(s[1..]);
    }
  }

  /** Formatting twice is formatting once. */
  lemma FormatNameIdempotent(s: string)
    ensures FormatName(FormatName(s)) == FormatName(s)
  {
    FormatNameNoBoundary(s);
    FormatNameUnchanged(FormatName(s));
  }

  /** Removes every space that sits between a lower-case and an upper-case
      letter: the inverse of the formatter. */
  function RemoveBoundarySpaces(t: string): string
    decreases |t|
  {
    if |t| >= 3 && IsLower(t[0]) && t[1] == ' ' && IsUpper(t[2]) then [t[0]] + RemoveBoundarySpaces(t[2..])
    else if t == [] then []
    else [t[0]] + RemoveBoundarySpaces(t[1..])
  }

  /** `s` has no space standing between a lower-case and an upper-case letter
      (so every such space in the formatted name was put there by it). */
  ghost predicate NoSpacedBoundary(s: string)
  {
    forall i :: 0 <= i < |s| - 2 ==> !(IsLower(s[i]) && s[i + 1] == ' ' && IsUpper(s[i + 2]))
  }

  lemma FormatNameSecond(s: string)
    requires |s| >= 2 && s[0] == ' '
    ensures |FormatName(s)| >= 2 && FormatName(s)[1] == s[1]
  {
  }

  /** Deleting the spaces the formatter inserted gives back the stored name. */
  lemma {:induction false} FormatNameRoundTrip(s: string)
    requires NoSpacedBoundary(s)
    ensures RemoveBoundarySpaces(FormatName(s)) == s
    decreases |s|
  {
    if s == [] {
    } else if |s| >= 2 && Boundary(s[0], s[1]) {
      var rest := s[2..];
      assert NoSpacedBoundary(rest) by {
        forall i | 0 <= i < |rest| - 2 ensures !(IsLower(rest[i]) && rest[i + 1] == ' ' && IsUpper(rest[i + 2])) {
          assert rest[i] == s[i + 2] && rest[i + 1] == s[i + 3] && rest[i + 2] == s[i + 4];
        }
      }
      FormatNameRoundTrip(rest);
      var t := [s[0], ' ', s[1]] + FormatName(rest);
      assert FormatName(s) == t;
      assert RemoveBoundarySpaces(t) == [s[0]] + RemoveBoundarySpaces(t[2..]);
      assert t[2..] == [s[1]] + FormatName(rest);
      assert ([s[1]] + FormatName(rest))[1..] == FormatName(rest);
      assert RemoveBoundarySpaces(t[2..]) == [s[1]] + rest;
      assert s == [s[0]] + ([s[1]] + rest);
    } else {
      var rest := s[1..];
      assert NoSpacedBoundary(rest) by {
        forall i | 0 <= i < |rest| - 2 ensures !(IsLower(rest[i]) && rest[i + 1] == ' ' && IsUpper(rest[i + 2])) {
          assert rest[i] == s[i + 1] && rest[i + 1] == s[i + 2] && rest[i + 2] == s[i + 3];
        }
      }
      FormatNameRoundTrip(rest);
      var t := [s[0]] + FormatName(rest);
      assert FormatName(s) == t;
      if |rest| >= 2 && rest[0] == ' ' {
        FormatNameSecond(rest);
      }
      assert !(|t| >= 3 && IsLower(t[0]) && t[1] == ' ' && IsUpper(t[2]));
      assert t[1..] == FormatName(rest);
    }
  }

  /** `formattedName`: the formatted name, or "" when there is no card or the
      name is empty. */
  function FormattedName(card: Option<CardRecord>): (r: string)
    ensures card.None? ==> r == ""
    ensures card.Some? ==> r == Spaced(card.value.cardholderName)
  {
    FormatNameIsSpaced(if card.Some? then card.value.cardholderName else "");
    if card.Some? && card.value.cardholderName != "" then FormatName(card.value.cardholderName) else ""
  }

  /** A name stored as two boundary-free parts, the first ending in a
      lower-case letter and the second starting with an upper-case one, reads
      as the two parts separated by one space. */
  lemma {:induction false} TwoPartName(first: string, last: string)
    requires first != [] && last != []
    requires NoBoundary(first) && NoBoundary(last)
    requires IsLower(first[|first| - 1]) && IsUpper(last[0])
    ensures FormatName(first + last) == first + " " + last
    decreases |first|
  {
    var s := first + last;
    if |first| == 1 {
      assert s[0] == first[0] && s[1] == last[0];
      assert NoBoundary(last[1..]) by {
        forall i | 0 <= i < |last[1..]| - 1 ensures !Boundary(last[1..][i], last[1..][i + 1]) {
          assert last[1..][i] == last[i + 1] && last[1..][i + 1] == last[i + 2];
        }
      }
      FormatNameUnchanged(last[1..]);
      assert s[2..] == last[1..];
      assert [first[0], ' ', last[0]] + last[1..] == first + " " + last;
    } else {
      assert s[0] == first[0] && s[1] == first[1];
      assert !Boundary(first[0], first[1]);
      var tail := first[1..];
      assert NoBoundary(tail) by {
        forall i | 0 <= i < |tail| - 1 ensures !Boundary(tail[i], tail[i + 1]) {
          assert tail[i] == first[i + 1] && tail[i + 1] == first[i + 2];
        }
      }
      TwoPartName(tail, last);
      assert s[1..] == tail + last;
      assert [first[0]] + (tail + " " + last) == first + " " + last;
    }
  }

  /** The two examples: "JohnSmith" reads "John Smith", "johnsmith" stays. */
  lemma NameExamples()
    ensures FormatName("John" + "Smith") == "John" + " " + "Smith"
    ensures FormatName("johnsmith") == "johnsmith"
  {
    var first, last := "John", "Smith";
    assert NoBoundary(first) by {
      assert !Boundary(first[0], first[1]) && !Boundary(first[1], first[2]) && !Boundary(first[2], first[3]);
    }
    assert NoBoundary(last) by {
      assert !Boundary(last[0], last[1]) && !Boundary(last[1], last[2]) && !Boundary(last[2], last[3]) && !Boundary(last[3], last[4]);
    }
    TwoPartName(first, last);
    var j := "johnsmith";
    assert NoBoundary(j) by {
      forall i | 0 <= i < |j| - 1 ensures !Boundary(j[i], j[i + 1]) {
        assert IsLower(j[i + 1]);
      }
    }
    FormatNameUnchanged(j);
  }

  // ---------------------------------------------------------------------------
  // Expiry date

  /** `String(v)` of an optional number: "undefined" when it is absent. */
  function JsString(v: Option<nat>): string
  {
    match v
    case None => "undefined"
    case Some(n) => NumberToString(n)
  }

  function Month(card: Option<CardRecord>): Option<nat>
  {
    if card.Some? then Some(card.value.expiryMonth) else None
  }

  function Year(card: Option<CardRecord>): Option<nat>
  {
    if card.Some? then Some(card.value.expiryYear) else None
  }

  /** A leading zero does not change the value of a string of digits. */
  lemma {:induction false} LeadingZero(s: string)
    requires forall i :: 0 <= i < |s| ==> IsDigit(s[i])
    ensures forall i :: 0 <= i < |['0'] + s| ==> IsDigit((['0'] + s)[i])
    ensures DigitsValue(['0'] + s) == DigitsValue(s)
    decreases |s|
  {
    var z := ['0'] + s;
    if s != [] {
      LeadingZero(s[..|s| - 1]);
      assert z[..|z| - 1] == ['0'] + s[..|s| - 1];
    }
  }

  /** `String(cardData?.expiryMonth).padStart(2, "0")`: at least two digits
      that read back as the month, or "undefined" without a card. */
  function MonthText(card: Option<CardRecord>): (r: string)
    ensures card.None? ==> r == "undefined"
    ensures card.Some? ==>
      (|r| >= 2 && (forall i :: 0 <= i < |r| ==> IsDigit(r[i])) && DigitsValue(r) == card.value.expiryMonth)
  {
    var m := JsString(Month(card));
    if card.Some? then
      NumberToStringRoundTrip(card.value.expiryMonth);
      if |m| < 2 then
        assert PadStart(m, 2, '0') == ['0'] + m;
        LeadingZero(m);
        PadStart(m, 2, '0')
      else
        PadStart(m, 2, '0')
    else
      PadStart(m, 2, '0')
  }

  /** The card face: month, "/", and `String(cardData?.expiryYear).slice(-2)`,
      which is the year modulo 100 in two digits once the year has two. */
  function ShortExpiry(card: Option<CardRecord>): (r: string)
    ensures card.Some? && card.value.expiryYear >= 10 ==>
      r == MonthText(card) + "/" + PadStart(NumberToString(card.value.expiryYear % 100), 2, '0')
    ensures card.Some? && card.value.expiryYear < 10 ==>
      r == MonthText(card) + "/" + NumberToString(card.value.expiryYear)
  {
    var y := JsString(Year(card));
    if card.Some? && card.value.expiryYear >= 10 then
      ShortYearIsLastTwoDigits(card.value.expiryYear);
      MonthText(card) + "/" + SliceFrom(y, -2)
    else
      MonthText(card) + "/" + SliceFrom(y, -2)
  }

  /** The detail list: month, "/", and the year as it is (nothing when absent). */
  function LongExpiry(card: Option<CardRecord>): (r: string)
    ensures |r| > |MonthText(card)| && r[..|MonthText(card)|] == MonthText(card) && r[|MonthText(card)|] == '/'
    ensures card.None? ==> r == "undefined/"
    ensures card.Some? ==> var y := r[|MonthText(card)| + 1..];
      (forall i :: 0 <= i < |y| ==> IsDigit(y[i])) && DigitsValue(y) == card.value.expiryYear
  {
    var m := MonthText(card);
    if card.Some? then
      var y := NumberToString(card.value.expiryYear);
      NumberToStringRoundTrip(card.value.expiryYear);
      assert (m + "/" + y)[|m| + 1..] == y;
      m + "/" + y
    else
      m + "/"
  }

  /** Months 1 to 9 gain a leading zero; months of two digits are unchanged. */
  lemma MonthPadding(m: nat)
    ensures 1 <= m <= 9 ==> PadStart(NumberToString(m), 2, '0') == ['0', DigitChar(m)]
    ensures m >= 10 ==> PadStart(NumberToString(m), 2, '0') == NumberToString(m)
  {
  }

  /** The short form shows the last two digits of the year: a year of two or
      more digits shows `year % 100`, padded to two digits. */
  lemma LastTwoDigits(y: nat)
    ensures y % 100 == 10 * ((y / 10) % 10) + y % 10
  {
    var q, r := y / 100, y % 100;
    assert y == 100 * q + r;
    assert y / 10 == 10 * q + r / 10;
    assert (y / 10) % 10 == r / 10;
  }

  lemma DivMod10(q: nat, r: nat)
    requires r < 10
    ensures (10 * q + r) / 10 == q && (10 * q + r) % 10 == r
  {
  }

  lemma TwoDigitString(a: nat, b: nat)
    requires 1 <= a < 10 && b < 10
    ensures NumberToString(10 * a + b) == [DigitChar(a), DigitChar(b)]
  {
    DivMod10(a, b);
    assert NumberToString(a) == [DigitChar(a)];
  }

  lemma {:induction false} ShortYearIsLastTwoDigits(y: nat)
    requires y >= 10
    ensures SliceFrom(NumberToString(y), -2) == PadStart(NumberToString(y % 100), 2, '0')
  {
    var s := NumberToString(y);
    var head := NumberToString(y / 10);
    var a, b := (y / 10) % 10, y % 10;
    assert s == head + [DigitChar(b)];
    assert head[|head| - 1] == DigitChar(a);
    assert SliceFrom(s, -2) == [DigitChar(a), DigitChar(b)];
    LastTwoDigits(y);
    if a == 0 {
      assert NumberToString(y % 100) == [DigitChar(b)];
    } else {
      TwoDigitString(a, b);
    }
  }

  /** A card expiring in March 2027 shows "03/27" on its face. */
  lemma ShortExpiryExample(card: CardRecord)
    requires card.expiryMonth == 3 && card.expiryYear == 2027
    ensures ShortExpiry(Some(card)) == "03/27"
  {
    var c := Some(card);
    assert MonthText(c) == "03" by {
      assert NumberToString(3) == "3";
    }
    assert 2027 % 100 == 10 * 2 + 7;
    TwoDigitString(2, 7);
    var t := NumberToString(10 * 2 + 7);
    assert t == "27" && PadStart(t, 2, '0') == t;
    assert ShortExpiry(c) == MonthText(c) + "/" + t;
    assert MonthText(c) + "/" + t == "03" + "/" + "27";
  }

  /** The same card shows "03/2027" in the detail list. */
  lemma LongExpiryExample(card: CardRecord)
    requires card.expiryMonth == 3 && card.expiryYear == 2027
    ensures LongExpiry(Some(card)) == "03/2027"
  {
    var c := Some(card);
    assert MonthText(c) == "03" by {
      assert NumberToString(3) == "3";
    }
    var y := NumberToString(2027);
    assert LongExpiry(c) == MonthText(c) + "/" + y;
    DivMod10(2, 0);
    DivMod10(20, 2);
    DivMod10(202, 7);
    assert NumberToString(20) == "20";
    assert NumberToString(202) == "20" + "2";
    assert y == "202" + "7";
  }

  /** Without a card record (a failed fetch) the face reads "undefined/ed"
      and the detail list "undefined/". */
  lemma ExpiryWithoutCard()
    ensures ShortExpiry(None) == "undefined/ed"
    ensures LongExpiry(None) == "undefined/"
  {
    var u := JsString(None);
    assert |u| == 9;
    assert ClampIndex(-2, 9) == 7 && ClampIndex(9, 9) == 9;
    assert SliceFrom(u, -2) == u[7..9];
    assert u[7..9] == "ed";
  }

  // ---------------------------------------------------------------------------
  // CVV

  const Mask := "•••"

  /** `showCVC ? cardData?.cvc : "•••"`; an absent CVV renders as nothing. */
  function DisplayedCvv(showCVC: bool, card: Option<CardRecord>): (r: string)
    ensures showCVC && card.Some? ==> r == card.value.cvc
    ensures showCVC && card.None? ==> r == ""
    ensures !showCVC ==> r == Mask && |r| == 3
  {
    if showCVC then (if card.Some? then card.value.cvc else "") else Mask
  }
}
