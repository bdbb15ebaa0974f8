/** Currency normalisation: the parsers' `_parse_currency`, which turns a captured amount such as
    "254,888.45" or "$254,888.45" into an exact two-decimal value. Values are integer cents. */
module Currency {
  import opened Wrappers
  import opened Text

  /** The captured amount with every '$' and every ',' removed (and nothing else). */
  function Clean(s: string): (r: string)
    ensures |r| <= |s|
    ensures forall i :: 0 <= i < |r| ==> r[i] != '$' && r[i] != ','
    ensures (forall i :: 0 <= i < |s| ==> s[i] != '$' && s[i] != ',') ==> r == s
  {
    if s == [] then []
    else if s[0] == '$' || s[0] == ',' then Clean(s[1..])
    else [s[0]] + Clean(s[1..])
  }

  lemma {:induction false} CleanAppend(a: string, b: string)
    ensures Clean(a + b) == Clean(a) + Clean(b)
  {
    if a == [] {
      assert a + b == b;
    } else {
      assert (a + b)[1..] == a[1..] + b;
      CleanAppend(a[1..], b);
    }
  }

  /** Every character that survives cleaning was already in the input. */
  lemma {:induction false} CleanKeeps(s: string, i: int)
    requires 0 <= i < |Clean(s)|
    ensures Clean(s)[i] in s
  {
    if s[0] == '$' || s[0] == ',' {
      CleanKeeps(s[1..], i);
    } else if i > 0 {
      CleanKeeps(s[1..], i - 1);
    }
  }

  /** Decimal(cleaned), in cents, for the one shape a cleaned capture can take: integer digits
      (possibly none, as in ".50"), a point, two fraction digits. Anything else is None. */
  function DecimalCents(c: string): (r: Option<int>)
    ensures r.Some? ==> r.value >= 0
    ensures r.Some? <==> |c| >= 3 && c[|c| - 3] == '.' && AllDigits(c[..|c| - 3]) && AllDigits(c[|c| - 2..])
  {
    if |c| >= 3 && c[|c| - 3] == '.' && AllDigits(c[..|c| - 3]) && AllDigits(c[|c| - 2..])
    then Some(DigitsValue(c[..|c| - 3]) * 100 + DigitsValue(c[|c| - 2..]))
    else None
  }

  /** `_parse_currency`: remove '$' and ',' and read the rest as a two-decimal number. */
  function ParseCurrency(s: string): (r: Option<int>)
    ensures r.Some? ==> r.value >= 0
  {
    DecimalCents(Clean(s))
  }

  /** The shape of every amount the extraction patterns capture: `[\d,]+\.\d{2}`. */
  predicate IsAmountText(s: string) {
    && |s| >= 4
    && s[|s| - 3] == '.'
    && IsDigit(s[|s| - 2]) && IsDigit(s[|s| - 1])
    && forall i :: 0 <= i < |s| - 3 ==> IsDigit(s[i]) || s[i] == ','
  }

  type AmountText = s: string | IsAmountText(s) witness "0.00"

  lemma AmountParses(a: string)
    requires IsAmountText(a)
    ensures ParseCurrency(a).Some?
  {
    var n := |a| - 3;
    var front, frac := a[..n], a[n..];
    assert a == front + frac;
    assert frac == "." + [a[n + 1], a[n + 2]];
    CleanFraction(a[n + 1], a[n + 2]);
    CleanAppend(front, frac);
    var p := Clean(front);
    forall i | 0 <= i < |p| ensures IsDigit(p[i]) {
      CleanKeeps(front, i);
    }
    var c := Clean(a);
    assert c == p + frac;
    assert c[..|c| - 3] == p;
    assert c[|c| - 2..] == [a[n + 1], a[n + 2]];
  }

  /** The value, in cents, of a captured amount; parsing a capture never fails. */
  function Cents(a: AmountText): (c: nat)
    ensures ParseCurrency(a) == Some(c)
  {
    AmountParses(a);
    ParseCurrency(a).value
  }

  /** Removing '$' and ',' twice is removing them once, so cleaning never changes the parse. */
  lemma {:induction false} CleanIdempotent(s: string)
    ensures Clean(Clean(s)) == Clean(s)
    ensures ParseCurrency(Clean(s)) == ParseCurrency(s)
  {
    if s != [] {
      CleanIdempotent(s[1..]);
      if s[0] != '$' && s[0] != ',' {
        CleanAppend([s[0]], Clean(s[1..]));
      }
    }
  }

  /** A '$' or a ',' anywhere in the amount does not change its value: "$1,234.56" and
      "1234.56" parse alike. */
  lemma SeparatorIgnored(a: string, b: string, sep: char)
    requires sep == '$' || sep == ','
    ensures ParseCurrency(a + [sep] + b) == ParseCurrency(a + b)
  {
    assert Clean([sep]) == [] by {
      assert [sep][1..] == [];
    }
    CleanAppend(a, [sep]);
    assert Clean(a + [sep]) == Clean(a) + [];
    assert Clean(a) + [] == Clean(a);
    CleanAppend(a + [sep], b);
    CleanAppend(a, b);
  }

  // ---------------------------------------------------------------------------------
  // The inverse direction: printing cents the way statements show them ("$1,234.56").

  /** Digits with a ',' between every group of three, counted from the right. */
  function Group(ds: string): (g: string)
    requires AllDigits(ds)
    ensures Clean(g) == ds
    ensures forall i :: 0 <= i < |g| ==> IsDigit(g[i]) || g[i] == ','
  {
    if |ds| <= 3 then ds
    else
      var head, tail := ds[..|ds| - 3], ds[|ds| - 3..];
      var front := Group(head);
      var g := front + "," + tail;
      CleanAppend(front + ",", tail);
      CleanAppend(front, ",");
      assert ds == head + tail;
      assert forall i :: 0 <= i < |g| ==> IsDigit(g[i]) || g[i] == ',' by {
        forall i | 0 <= i < |g|
          ensures IsDigit(g[i]) || g[i] == ','
        {
          if i < |front| {
            assert g[i] == front[i];
          } else if i > |front| {
            assert g[i] == tail[i - |front| - 1];
          }
        }
      }
      g
  }

  function FormatAmount(c: nat): (s: string)
  {
    var cents := c % 100;
    "$" + Group(NatDigits(c / 100)) + "." + [DigitChar(cents / 10), DigitChar(cents % 10)]
  }

  /** A digit string, a point and two digits, read as cents. */
  lemma DecimalOfParts(ds: string, d1: char, d2: char)
    requires AllDigits(ds) && IsDigit(d1) && IsDigit(d2)
    ensures DecimalCents(ds + "." + [d1, d2]) == Some(DigitsValue(ds) * 100 + DigitValue(d1) * 10 + DigitValue(d2))
  {
    var c := ds + "." + [d1, d2];
    assert c[..|c| - 3] == ds;
    var two := c[|c| - 2..];
    assert two == [d1, d2];
    assert two[..1] == [d1];
    assert DigitsValue([d1]) == DigitValue(d1) by {
      assert [d1][..0] == [];
    }
  }

  lemma CleanDollar(g: string)
    ensures Clean("$" + g) == Clean(g)
  {
    assert ("$" + g)[1..] == g;
  }

  lemma NoSeparators(s: string)
    requires forall i :: 0 <= i < |s| ==> s[i] != '$' && s[i] != ','
    ensures Clean(s) == s
  {
  }

  /** The fraction part of a printed amount has nothing to clean. */
  lemma CleanFraction(d1: char, d2: char)
    requires IsDigit(d1) && IsDigit(d2)
    ensures Clean("." + [d1, d2]) == "." + [d1, d2]
  {
    NoSeparators("." + [d1, d2]);
  }

  lemma CentsSplit(c: nat)
    ensures c == (c / 100) * 100 + (c % 100 / 10) * 10 + c % 100 % 10
  {
  }

  /** Printing an amount and parsing it back gives the amount. */
  lemma FormatRoundTrip(c: nat)
    ensures ParseCurrency(FormatAmount(c)) == Some(c)
  {
    var ds := NatDigits(c / 100);
    var g := Group(ds);
    var cents := c % 100;
    var d1, d2 := DigitChar(cents / 10), DigitChar(cents % 10);
    var frac := "." + [d1, d2];
    assert FormatAmount(c) == "$" + g + frac;
    CleanDollar(g);
    CleanAppend("$" + g, frac);
    CleanFraction(d1, d2);
    assert Clean(FormatAmount(c)) == ds + frac;
    DecimalOfParts(ds, d1, d2);
    assert ds + frac == ds + "." + [d1, d2];
    CentsSplit(c);
  }

  /** Without its '$', a printed amount has the shape the extraction patterns capture. */
  lemma FormatShape(c: nat)
    ensures IsAmountText(FormatAmount(c)[1..])
  {
    var g := Group(NatDigits(c / 100));
    var cents := c % 100;
    var frac := "." + [DigitChar(cents / 10), DigitChar(cents % 10)];
    var s := FormatAmount(c)[1..];
    assert s == g + frac;
    assert |g| >= 1;
    forall i | 0 <= i < |s| - 3 ensures IsDigit(s[i]) || s[i] == ',' {
      assert s[i] == g[i];
    }
  }
}
