/** The cumulative value series of `investment_performance` (views.py) for statement-based
    investments: a starting balance, a running total over the transactions in date order, and
    one chart point per calendar day. Times are seconds. */
module Series {
  import opened Wrappers
  import opened Transactions
  import opened Ledger

  datatype Point = Point(time: int, value: int)

  /** The statement with the smallest date (the first such in the history), if any. */
  function Earliest(history: seq<Statement>): (e: Option<Statement>)
    ensures e.None? <==> history == []
    ensures e.Some? ==> e.value in history && forall s :: s in history ==> DateOf(e.value) <= DateOf(s)
  {
    if history == [] then None
    else
      var rest := Earliest(history[1..]);
      assert forall s :: s in history ==> s == history[0] || s in history[1..];
      if rest.None? || DateOf(history[0]) <= DateOf(rest.value) then Some(history[0]) else rest
  }

  /** The starting balance: the earliest statement's beginning value, or 0 when there is no
      statement or it has no beginning value. */
  function InitialBalance(history: seq<Statement>): (b: int)
    ensures Earliest(history).None? ==> b == 0
    ensures Earliest(history).Some? && Earliest(history).value.Annuity? ==>
      b == (if Earliest(history).value.a.beginning.Some? then Earliest(history).value.a.beginning.value else 0)
    ensures Earliest(history).Some? && Earliest(history).value.Other? ==>
      b == (if Earliest(history).value.otherBeginning.Some? then Earliest(history).value.otherBeginning.value else 0)
  {
    var earliest := Earliest(history);
    if earliest.None? then 0
    else
      var beginning := if earliest.value.Annuity? then earliest.value.a.beginning else earliest.value.otherBeginning;
      if beginning.Some? then beginning.value else 0
  }

  /** The transactions dated before `start`, in order (`filter(date__lt=start)`). */
  function Before(ts: seq<Transaction>, start: int): (r: seq<Transaction>)
    ensures forall t :: t in r <==> t in ts && t.time < start
  {
    if ts == [] then []
    else
      var last := ts[|ts| - 1];
      assert forall t :: t in ts <==> t in ts[..|ts| - 1] || t == last;
      Before(ts[..|ts| - 1], start) + (if last.time < start then [last] else [])
  }

  /** The transactions dated from `start` to `end`, in order. */
  function Within(ts: seq<Transaction>, start: int, end: int): (r: seq<Transaction>)
    ensures forall t :: t in r <==> t in ts && start <= t.time <= end
  {
    if ts == [] then []
    else
      var last := ts[|ts| - 1];
      assert forall t :: t in ts <==> t in ts[..|ts| - 1] || t == last;
      Within(ts[..|ts| - 1], start, end) + (if start <= last.time <= end then [last] else [])
  }

  /** The filters keep order: filtering a concatenation concatenates the filtered parts, so each
      kept transaction stays where it was relative to the others. */
  lemma {:induction false} BeforeAppend(a: seq<Transaction>, b: seq<Transaction>, start: int)
    ensures Before(a + b, start) == Before(a, start) + Before(b, start)
  {
    if b == [] {
      assert a + b == a;
    } else {
      assert (a + b)[..|a + b| - 1] == a + b[..|b| - 1];
      BeforeAppend(a, b[..|b| - 1], start);
    }
  }

  /** The filters keep every copy of a transaction they select and drop every copy of one they
      do not. */
  lemma {:induction false} BeforeCounts(ts: seq<Transaction>, start: int)
    ensures forall t :: multiset(Before(ts, start))[t] == if t.time < start then multiset(ts)[t] else 0
  {
    if ts != [] {
      var init, last := ts[..|ts| - 1], ts[|ts| - 1];
      BeforeCounts(init, start);
      assert ts == init + [last];
      assert Before(ts, start) == Before(init, start) + (if last.time < start then [last] else []);
    }
  }

  lemma {:induction false} WithinCounts(ts: seq<Transaction>, start: int, end: int)
    ensures forall t :: multiset(Within(ts, start, end))[t] == if start <= t.time <= end then multiset(ts)[t] else 0
  {
    if ts != [] {
      var init, last := ts[..|ts| - 1], ts[|ts| - 1];
      WithinCounts(init, start, end);
      assert ts == init + [last];
      assert Within(ts, start, end) == Within(init, start, end) + (if start <= last.time <= end then [last] else []);
    }
  }

  lemma {:induction false} WithinAppend(a: seq<Transaction>, b: seq<Transaction>, start: int, end: int)
    ensures Within(a + b, start, end) == Within(a, start, end) + Within(b, start, end)
  {
    if b == [] {
      assert a + b == a;
    } else {
      assert (a + b)[..|a + b| - 1] == a + b[..|b| - 1];
      WithinAppend(a, b[..|b| - 1], start, end);
    }
  }

  /** One transaction's effect on the points: the last point takes the new value when it is on
      the transaction's day, otherwise a point for the transaction is appended. */
  function Place(points: seq<Point>, t: Transaction, value: int): (r: seq<Point>)
    ensures r != [] && r[|r| - 1].value == value && Day(r[|r| - 1].time) == Day(t.time)
    ensures points != [] && Day(points[|points| - 1].time) == Day(t.time) ==>
      |r| == |points| && r[..|r| - 1] == points[..|points| - 1]
    ensures !(points != [] && Day(points[|points| - 1].time) == Day(t.time)) ==>
      r == points + [Point(t.time, value)]
  {
    if points != [] && Day(points[|points| - 1].time) == Day(t.time) then
      points[..|points| - 1] + [Point(points[|points| - 1].time, value)]
    else points + [Point(t.time, value)]
  }

  /** The points after walking the transactions ts from the points `init`, the running total
      starting at `base`. */
  function Walk(init: seq<Point>, ts: seq<Transaction>, base: int): seq<Point> {
    if ts == [] then init
    else Place(Walk(init, ts[..|ts| - 1], base), ts[|ts| - 1], base + Total(ts))
  }

  /** The balance at the start of the period: the starting balance plus the earlier activity. */
  function OpeningValue(ts: seq<Transaction>, history: seq<Statement>, start: int): int {
    InitialBalance(history) + Total(Before(ts, start))
  }

  /** The points of the chart: a start-of-period point when the opening value is positive or
      the investment has any transaction, then the walk over the period's transactions. */
  function SeriesOf(ts: seq<Transaction>, history: seq<Statement>, start: int, end: int): seq<Point> {
    var opening := OpeningValue(ts, history, start);
    var first := if opening > 0 || ts != [] then [Point(start, opening)] else [];
    Walk(first, Within(ts, start, end), opening)
  }

  /** The cumulative-value walk, over the annuity's transactions in date order. */
  method ValueSeries(transactions: seq<Transaction>, history: seq<Statement>, start: int, end: int)
    returns (points: seq<Point>)
    ensures points == SeriesOf(transactions, history, start, end)
  {
    points := [];
    var cumulative := InitialBalance(history);

    var prePeriod := Before(transactions, start);
    var i := 0;
    while i < |prePeriod|
      invariant 0 <= i <= |prePeriod|
      invariant cumulative == InitialBalance(history) + Total(prePeriod[..i])
    {
      TotalSnoc(prePeriod, i);
      cumulative := cumulative + Signed(prePeriod[i]);
      i := i + 1;
    }
    assert prePeriod[..i] == prePeriod;

    if cumulative > 0 || |transactions| > 0 {
      points := points + [Point(start, cumulative)];
    }
    ghost var opening := cumulative;
    ghost var first := points;
    assert opening == OpeningValue(transactions, history, start);
    assert first == if opening > 0 || transactions != [] then [Point(start, opening)] else [];

    var period := Within(transactions, start, end);
    points := WalkPeriod(points, period, cumulative);
  }

  /** The loop over the period's transactions: the running total from `opening`, one point per
      calendar day, remembering the day of the last point it added. */
  method WalkPeriod(first: seq<Point>, period: seq<Transaction>, opening: int) returns (points: seq<Point>)
    ensures points == Walk(first, period, opening)
  {
    points := first;
    var cumulative := opening;
    var lastAdded: Option<int> := None;
    var j := 0;
    assert period[..0] == [];
    while j < |period|
      invariant 0 <= j <= |period|
      invariant cumulative == opening + Total(period[..j])
      invariant points == Walk(first, period[..j], opening)
      invariant lastAdded.Some? ==> points != [] && Day(points[|points| - 1].time) == lastAdded.value
    {
      var txn := period[j];
      cumulative := cumulative + Signed(txn);
      ghost var prev := points;
      points, lastAdded := PlaceStep(points, lastAdded, txn, cumulative);
      WalkStep(first, period, j, opening, prev, points, cumulative);
      j := j + 1;
    }
    assert period[..j] == period;
  }

  /** One step of the walk: the last point takes the new value when it is on the transaction's
      day (whether or not this walk added it), otherwise a point is appended and its day
      remembered as the last day added. */
  method PlaceStep(points: seq<Point>, lastAdded: Option<int>, txn: Transaction, cumulative: int)
    returns (next: seq<Point>, nextAdded: Option<int>)
    requires lastAdded.Some? ==> points != [] && Day(points[|points| - 1].time) == lastAdded.value
    ensures next == Place(points, txn, cumulative)
    ensures nextAdded.Some? ==> next != [] && Day(next[|next| - 1].time) == nextAdded.value
  {
    var day := Day(txn.time);
    nextAdded := lastAdded;
    if lastAdded != Some(day) {
      if |points| > 0 && Day(points[|points| - 1].time) == day {
        next := points[..|points| - 1] + [Point(points[|points| - 1].time, cumulative)];
      } else {
        next := points + [Point(txn.time, cumulative)];
        nextAdded := Some(day);
      }
    } else {
      next := points[..|points| - 1] + [points[|points| - 1].(value := cumulative)];
    }
  }

  lemma TotalSnoc(ts: seq<Transaction>, i: int)
    requires 0 <= i < |ts|
    ensures Total(ts[..i + 1]) == Total(ts[..i]) + Signed(ts[i])
  {
    assert ts[..i + 1][..i] == ts[..i];
  }

  /** One step of the walk loop: the running total and the points after the next transaction
      are those of the walk over one more transaction. */
  lemma WalkStep(init: seq<Point>, ts: seq<Transaction>, i: int, base: int, prev: seq<Point>, next: seq<Point>, value: int)
    requires 0 <= i < |ts|
    requires prev == Walk(init, ts[..i], base) && value == base + Total(ts[..i]) + Signed(ts[i])
    requires next == Place(prev, ts[i], value)
    ensures value == base + Total(ts[..i + 1])
    ensures next == Walk(init, ts[..i + 1], base)
  {
    assert ts[..i + 1][..i] == ts[..i];
  }

  // ---------------------------------------------------------------------------------
  // What the series promises.

  /** No two consecutive points fall on the same calendar day. */
  predicate DistinctDays(points: seq<Point>) {
    forall i :: 0 < i < |points| ==> Day(points[i - 1].time) != Day(points[i].time)
  }

  lemma {:induction false} WalkKeepsDaysDistinct(init: seq<Point>, ts: seq<Transaction>, base: int)
    requires DistinctDays(init)
    ensures DistinctDays(Walk(init, ts, base))
  {
    if ts != [] {
      WalkKeepsDaysDistinct(init, ts[..|ts| - 1], base);
    }
  }

  lemma SeriesDaysDistinct(ts: seq<Transaction>, history: seq<Statement>, start: int, end: int)
    ensures DistinctDays(SeriesOf(ts, history, start, end))
  {
    var opening := OpeningValue(ts, history, start);
    var first := if opening > 0 || ts != [] then [Point(start, opening)] else [];
    WalkKeepsDaysDistinct(first, Within(ts, start, end), opening);
  }

  /** After at least one period transaction the last point carries the running total after all
      the transactions walked, and it is on the day of the last of them. */
  lemma WalkLastPoint(init: seq<Point>, ts: seq<Transaction>, base: int)
    requires ts != []
    ensures var w := Walk(init, ts, base);
      w != [] && w[|w| - 1].value == base + Total(ts) && Day(w[|w| - 1].time) == Day(ts[|ts| - 1].time)
  {
  }

  lemma SeriesEndsAtTotal(ts: seq<Transaction>, history: seq<Statement>, start: int, end: int)
    requires Within(ts, start, end) != []
    ensures var s := SeriesOf(ts, history, start, end);
      s != [] && s[|s| - 1].value == InitialBalance(history) + Total(Before(ts, start)) + Total(Within(ts, start, end))
  {
    var opening := OpeningValue(ts, history, start);
    var first := if opening > 0 || ts != [] then [Point(start, opening)] else [];
    WalkLastPoint(first, Within(ts, start, end), opening);
  }

  /** A transaction on the same day as the one before it adds no point. */
  lemma SameDayAddsNoPoint(init: seq<Point>, ts: seq<Transaction>, t: Transaction, base: int)
    requires ts != [] && Day(t.time) == Day(ts[|ts| - 1].time)
    ensures |Walk(init, ts + [t], base)| == |Walk(init, ts, base)|
  {
    assert (ts + [t])[..|ts|] == ts;
    WalkLastPoint(init, ts, base);
  }

  /** A transaction on a later day than every point so far adds exactly one point. */
  lemma NewDayAddsPoint(init: seq<Point>, ts: seq<Transaction>, t: Transaction, base: int)
    requires Walk(init, ts, base) == [] || Day(Walk(init, ts, base)[|Walk(init, ts, base)| - 1].time) != Day(t.time)
    ensures |Walk(init, ts + [t], base)| == |Walk(init, ts, base)| + 1
  {
    assert (ts + [t])[..|ts|] == ts;
  }

  lemma {:induction false} WalkLength(init: seq<Point>, ts: seq<Transaction>, base: int)
    ensures |init| <= |Walk(init, ts, base)| <= |init| + |ts|
  {
    if ts != [] {
      WalkLength(init, ts[..|ts| - 1], base);
    }
  }

  /** The start-of-period point is there exactly when the opening value is positive or there
      is any transaction: the series then starts on the period's start day; otherwise there
      is no point at all. */
  lemma StartPoint(ts: seq<Transaction>, history: seq<Statement>, start: int, end: int)
    ensures var opening := OpeningValue(ts, history, start);
      var s := SeriesOf(ts, history, start, end);
      && ((opening > 0 || ts != []) ==> s != [] && Day(s[0].time) == Day(start))
      && (!(opening > 0 || ts != []) ==> s == [])
  {
    var opening := OpeningValue(ts, history, start);
    if opening > 0 || ts != [] {
      WalkPrefix([Point(start, opening)], Within(ts, start, end), opening);
    }
  }

  /** The walk never changes the day of its first point. */
  lemma {:induction false} WalkPrefix(init: seq<Point>, ts: seq<Transaction>, base: int)
    requires init != []
    ensures Walk(init, ts, base) != [] && Day(Walk(init, ts, base)[0].time) == Day(init[0].time)
  {
    if ts != [] {
      WalkPrefix(init, ts[..|ts| - 1], base);
      var w := Walk(init, ts[..|ts| - 1], base);
      WalkLength(init, ts[..|ts| - 1], base);
      if |w| > 1 {
        assert Place(w, ts[|ts| - 1], base + Total(ts))[0] == w[0];
      }
    }
  }
}
