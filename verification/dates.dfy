/** Calendar dates as the parsers read them with Python's datetime.strptime, in the two formats
    the statements use: '%B %d, %Y' ("July 1, 2024") and '%m/%d/%Y' ("09/30/2024"). */
module Dates {
  import opened Wrappers
  import opened Text

  datatype Date = Date(year: int, month: int, day: int)

  predicate IsLeapYear(year: int) {
    year % 4 == 0 && (year % 100 != 0 || year % 400 == 0)
  }

  function DaysInMonth(year: int, month: int): (n: int)
    requires 1 <= month <= 12
    ensures 28 <= n <= 31
    ensures n == 29 <==> month == 2 && IsLeapYear(year)
  {
    if month == 2 then (if IsLeapYear(year) then 29 else 28)
    else if month == 4 || month == 6 || month == 9 || month == 11 then 30
    else 31
  }

  /** The dates Python's `date` type can hold: strptime raises ValueError for any other. */
  predicate IsValid(d: Date) {
    1 <= d.year <= 9999 && 1 <= d.month <= 12 && 1 <= d.day <= DaysInMonth(d.year, d.month)
  }

  /** The full month names '%B' accepts, compared case-insensitively. */
  const MonthNames: seq<string> := ["january", "february", "march", "april", "may", "june",
    "july", "august", "september", "october", "november", "december"]

  lemma MonthNamesDistinct()
    ensures |MonthNames| == 12
    ensures forall j, k :: 0 <= j < k < 12 ==> MonthNames[j] != MonthNames[k]
  {
  }

  /** s is the k-th month name (0-based) in any letter case. */
  predicate NamesMonth(s: string, k: int)
    requires 0 <= k < 12
  {
    |s| == |MonthNames[k]| && MatchesAt(s, 0, MonthNames[k])
  }

  function MonthNumberFrom(s: string, k: nat): (r: Option<int>)
    requires k <= 12
    decreases 12 - k
    ensures r.Some? ==> k + 1 <= r.value <= 12 && NamesMonth(s, r.value - 1)
    ensures r.None? ==> forall j :: k <= j < 12 ==> !NamesMonth(s, j)
  {
    if k == 12 then None
    else if NamesMonth(s, k) then Some(k + 1)
    else MonthNumberFrom(s, k + 1)
  }

  /** The month number (1..12) that a '%B' field names, if any. */
  function MonthNumber(s: string): (r: Option<int>)
    ensures r.Some? ==> 1 <= r.value <= 12 && NamesMonth(s, r.value - 1)
    ensures r.None? ==> forall j :: 0 <= j < 12 ==> !NamesMonth(s, j)
  {
    MonthNumberFrom(s, 0)
  }

  /** A '%d' field: one or two digits denoting 1..31. */
  predicate IsDayField(s: string) {
    1 <= |s| <= 2 && AllDigits(s) && 1 <= DigitsValue(s) <= 31
  }

  /** The date from its three already separated fields, if it exists. */
  function MakeDate(year: int, month: int, day: int): (r: Option<Date>)
    ensures r.Some? <==> IsValid(Date(year, month, day))
    ensures r.Some? ==> r.value == Date(year, month, day)
  {
    if 1 <= year <= 9999 && 1 <= month <= 12 && 1 <= day <= DaysInMonth(year, month)
    then Some(Date(year, month, day)) else None
  }

  /** datetime.strptime(s, '%B %d, %Y').date() on a string of the shape the period patterns
      capture (`\w+ \d+, \d{4}`): a month name, one space, the day, a comma and one space, a
      four-digit year. None stands for the ValueError strptime raises. */
  function ParseLongDate(s: string): (r: Option<Date>)
    ensures r.Some? ==> IsValid(r.value)
  {
    var n := |s|;
    if n < 9 || s[n - 6..n - 4] != ", " || !AllDigits(s[n - 4..]) then None
    else
      var head := s[..n - 6];
      var year := DigitsValue(s[n - 4..]);
      var h := |head|;
      var dayLen := if IsDigit(head[h - 2]) && head[h - 3] == ' ' then 2 else 1;
      if head[h - dayLen - 1] != ' ' || !IsDayField(head[h - dayLen..]) then None
      else
        var month := MonthNumber(head[..h - dayLen - 1]);
        if month.None? then None
        else MakeDate(year, month.value, DigitsValue(head[h - dayLen..]))
  }

  /** datetime.strptime(s, '%m/%d/%Y').date() on a string of the shape the statement-date
      patterns capture (`\d{2}/\d{2}/\d{4}`). None stands for strptime's ValueError. */
  function ParseNumericDate(s: string): (r: Option<Date>)
    ensures r.Some? ==> IsValid(r.value)
  {
    if |s| != 10 || s[2] != '/' || s[5] != '/' || !AllDigits(s[..2]) || !AllDigits(s[3..5]) || !AllDigits(s[6..])
    then None
    else MakeDate(DigitsValue(s[6..]), DigitsValue(s[..2]), DigitsValue(s[3..5]))
  }

  // ---------------------------------------------------------------------------------
  // The inverse direction: printing a date in the two formats.

  function Pow10(w: nat): (p: nat)
    ensures p >= 1
  {
    if w == 0 then 1 else 10 * Pow10(w - 1)
  }

  /** n in exactly w digits, zero-padded on the left. */
  function Pad(n: nat, w: nat): (s: string)
    ensures |s| == w && AllDigits(s)
    ensures n < Pow10(w) ==> DigitsValue(s) == n
  {
    if w == 0 then []
    else
      var s := Pad(n / 10, w - 1) + [DigitChar(n % 10)];
      assert s[..w - 1] == Pad(n / 10, w - 1);
      assert n < Pow10(w) ==> n / 10 < Pow10(w - 1);
      s
  }

  function Capitalized(word: string): (s: string)
    requires word != [] && 'a' <= word[0] <= 'z'
  {
    [(word[0] as int - 32) as char] + word[1..]
  }

  function FormatLongDate(d: Date): string
    requires IsValid(d)
  {
    Capitalized(MonthNames[d.month - 1]) + " " + NatDigits(d.day) + ", " + Pad(d.year, 4)
  }

  function FormatNumericDate(d: Date): string
    requires IsValid(d)
  {
    Pad(d.month, 2) + "/" + Pad(d.day, 2) + "/" + Pad(d.year, 4)
  }

  predicate IsLowerWord(w: string) {
    w != [] && forall i :: 0 <= i < |w| ==> 'a' <= w[i] <= 'z'
  }

  lemma MonthNameLower(k: int)
    requires 0 <= k < 12
    ensures IsLowerWord(MonthNames[k]) && |MonthNames[k]| >= 3
  {
  }

  lemma CapitalizedMatches(w: string)
    requires IsLowerWord(w)
    ensures |Capitalized(w)| == |w| && MatchesAt(Capitalized(w), 0, w)
  {
  }

  /** Two lower-case words that match the same text in full are the same word. */
  lemma SameFold(s: string, a: string, b: string)
    requires |a| == |s| && MatchesAt(s, 0, a)
    requires |b| == |s| && MatchesAt(s, 0, b)
    ensures a == b
  {
    forall i | 0 <= i < |a| ensures a[i] == b[i] {
      assert Fold(s[i]) == a[i] && Fold(s[i]) == b[i];
    }
  }

  lemma CapitalizedNamesMonth(k: int)
    requires 0 <= k < 12
    ensures MonthNames[k] != [] && 'a' <= MonthNames[k][0] <= 'z'
    ensures MonthNumber(Capitalized(MonthNames[k])) == Some(k + 1)
  {
    MonthNameLower(k);
    var s := Capitalized(MonthNames[k]);
    CapitalizedMatches(MonthNames[k]);
    MonthNamesDistinct();
    assert NamesMonth(s, k);
    var r := MonthNumber(s);
    if r.Some? && r.value != k + 1 {
      SameFold(s, MonthNames[r.value - 1], MonthNames[k]);
      assert false;
    }
  }

  lemma NumericDateRoundTrip(d: Date)
    requires IsValid(d)
    ensures ParseNumericDate(FormatNumericDate(d)) == Some(d)
  {
    var s := FormatNumericDate(d);
    assert s[..2] == Pad(d.month, 2);
    assert s[3..5] == Pad(d.day, 2);
    assert s[6..] == Pad(d.year, 4);
  }

  /** Zero-padding a digit string's value to its own width gives the string back. */
  lemma {:induction false} PadOfDigits(x: string)
    requires AllDigits(x)
    ensures Pad(DigitsValue(x), |x|) == x
  {
    if x != [] {
      var init := x[..|x| - 1];
      PadOfDigits(init);
      var n := DigitsValue(x);
      assert n / 10 == DigitsValue(init) && n % 10 == DigitValue(x[|x| - 1]);
      assert x == init + [x[|x| - 1]];
    }
  }

  /** The converse of the round trip: the only strings read as a date are that date's printed
      form, so an impossible date such as 02/30/2024 is rejected rather than read as another. */
  lemma NumericDateOnlyPrinted(s: string)
    ensures ParseNumericDate(s).Some? ==> FormatNumericDate(ParseNumericDate(s).value) == s
  {
    if ParseNumericDate(s).Some? {
      PadOfDigits(s[..2]);
      PadOfDigits(s[3..5]);
      PadOfDigits(s[6..]);
      assert s == s[..2] + "/" + s[3..5] + "/" + s[6..];
    }
  }

  /** ParseLongDate splits a well-formed long date back into its three fields. */
  lemma LongDateFields(name: string, ds: string, ys: string)
    requires IsDayField(ds) && |ys| == 4 && AllDigits(ys) && |name| >= 2
    ensures ParseLongDate(name + " " + ds + ", " + ys) ==
      (if MonthNumber(name).None? then None
       else MakeDate(DigitsValue(ys), MonthNumber(name).value, DigitsValue(ds)))
  {
    var s := name + " " + ds + ", " + ys;
    var n := |s|;
    assert s[n - 4..] == ys;
    assert s[n - 6..n - 4] == ", ";
    assert s[..n - 6] == name + " " + ds;
    DayAfterName(name, ds);
  }

  /** In "<name> <day>" the day field is found by the one-or-two-digit rule ParseLongDate uses. */
  lemma DayAfterName(name: string, ds: string)
    requires IsDayField(ds) && |name| >= 2
    ensures var head := name + " " + ds; var h := |head|;
      var dayLen := if IsDigit(head[h - 2]) && head[h - 3] == ' ' then 2 else 1;
      && dayLen == |ds| && head[h - dayLen..] == ds && head[h - dayLen - 1] == ' ' && head[..h - dayLen - 1] == name
  {
    var head := name + " " + ds;
    var h := |head|;
    if |ds| == 1 {
      assert head[h - 2] == ' ';
    } else {
      assert head[h - 2] == ds[0] && head[h - 3] == ' ';
    }
    assert head[h - |ds|..] == ds;
    assert head[..h - |ds| - 1] == name;
  }

  lemma DayDigits(day: int)
    requires 1 <= day <= 31
    ensures IsDayField(NatDigits(day))
  {
    if day >= 10 {
      assert NatDigits(day / 10) == [DigitChar(day / 10)];
    }
  }

  /** Printing a date as "July 1, 2024" and parsing it back gives the date. */
  lemma LongDateRoundTrip(d: Date)
    requires IsValid(d)
    ensures ParseLongDate(FormatLongDate(d)) == Some(d)
  {
    CapitalizedNamesMonth(d.month - 1);
    MonthNameLower(d.month - 1);
    var name := Capitalized(MonthNames[d.month - 1]);
    var ds, ys := NatDigits(d.day), Pad(d.year, 4);
    DayDigits(d.day);
    assert Pow10(4) == 10000;
    assert DigitsValue(ys) == d.year;
    assert FormatLongDate(d) == name + " " + ds + ", " + ys;
    LongDateFields(name, ds, ys);
    assert MakeDate(d.year, d.month, d.day) == Some(d);
  }
}
