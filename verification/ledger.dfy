/** The statement ledger of an annuity (models.py `AnnuityStatement` and `Annuity`):
    reconciliation of one statement, its predecessor, chain continuity with it, and the audit
    of gaps over the whole history. Amounts are cents; statement dates are day numbers. */
module Ledger {
  import opened Wrappers
  import opened Transactions

  datatype AnnuityStatement = AnnuityStatement(
    pk: Option<nat>,          // None until first saved
    investment: nat,
    date: int,
    beginning: Option<int>,
    ending: Option<int>,
    premiums: int,
    netChange: int,
    withdrawals: int,
    taxWithholding: int)

  /** A statement of an annuity: an annuity statement, or a statement of another kind, which
      may carry a beginning value. */
  datatype Statement =
    | Annuity(a: AnnuityStatement)
    | Other(otherDate: int, otherBeginning: Option<int>)

  function DateOf(s: Statement): int {
    if s.Annuity? then s.a.date else s.otherDate
  }

  function Abs(x: int): (a: int)
    ensures a >= 0 && (a == x || a == -x)
  {
    if x < 0 then -x else x
  }

  /** `calculated_change`: the ending value the period's activity implies. */
  function CalculatedChange(s: AnnuityStatement): (c: Option<int>)
    ensures c.Some? <==> s.beginning.Some? && s.ending.Some?
    ensures c.Some? ==> c.value - s.beginning.value == s.premiums + s.netChange - s.withdrawals - s.taxWithholding
  {
    if s.beginning.None? || s.ending.None? then None
    else Some(s.beginning.value + s.premiums + s.netChange - s.withdrawals - s.taxWithholding)
  }

  /** `reconciles`: within one cent of the implied ending value, which on whole cents means
      exactly equal to it; None when that cannot be computed. */
  function Reconciles(s: AnnuityStatement): (r: Option<bool>)
    ensures r.None? <==> CalculatedChange(s).None?
    ensures r.Some? ==> (r.value <==> CalculatedChange(s).value == s.ending.value)
  {
    var calculated := CalculatedChange(s);
    if calculated.None? || s.ending.None? then None
    else Some(Abs(calculated.value - s.ending.value) < 1)
  }

  /** `previous_statement`: among the history, a statement with the greatest date strictly
      before `date` (the first such in the history when several share that date). */
  function Previous(history: seq<Statement>, date: int): (p: Option<Statement>)
    ensures p.None? <==> forall s :: s in history ==> DateOf(s) >= date
    ensures p.Some? ==> p.value in history && DateOf(p.value) < date
    ensures p.Some? ==> forall s :: s in history && DateOf(s) < date ==> DateOf(s) <= DateOf(p.value)
  {
    if history == [] then None
    else
      var rest := Previous(history[1..], date);
      assert forall s :: s in history ==> s == history[0] || s in history[1..];
      if DateOf(history[0]) < date && (rest.None? || DateOf(rest.value) <= DateOf(history[0]))
      then Some(history[0])
      else rest
  }

  /** `chains_with_previous`: true for a first statement; None when the predecessor is not an
      annuity statement or a value is missing; otherwise whether the beginning value is within a
      cent of the predecessor's ending value. */
  function ChainsWithPrevious(history: seq<Statement>, s: AnnuityStatement): (r: Option<bool>)
    ensures Previous(history, s.date).None? ==> r == Some(true)
    ensures Previous(history, s.date).Some? && Previous(history, s.date).value.Other? ==> r.None?
    ensures var p := Previous(history, s.date);
      p.Some? && p.value.Annuity? ==> (r.Some? <==> s.beginning.Some? && p.value.a.ending.Some?)
    ensures var p := Previous(history, s.date);
      p.Some? && p.value.Annuity? && r.Some? ==> (r.value <==> s.beginning.value == p.value.a.ending.value)
  {
    var prev := Previous(history, s.date);
    if prev.None? then Some(true)
    else if !prev.value.Annuity? then None
    else if s.beginning.None? || prev.value.a.ending.None? then None
    else Some(Abs(s.beginning.value - prev.value.a.ending.value) < 1)
  }

  /** `chain_gap`: beginning value minus the annuity predecessor's ending value. */
  function ChainGap(history: seq<Statement>, s: AnnuityStatement): (g: Option<int>)
    ensures var p := Previous(history, s.date);
      g.Some? <==> p.Some? && p.value.Annuity? && s.beginning.Some? && p.value.a.ending.Some?
    ensures g.Some? ==> Previous(history, s.date).Some? && Previous(history, s.date).value.Annuity?
    ensures g.Some? ==> s.beginning.Some? && Previous(history, s.date).value.a.ending.Some?
    ensures g.Some? ==> g.value == s.beginning.value - Previous(history, s.date).value.a.ending.value
  {
    var prev := Previous(history, s.date);
    if prev.None? || !prev.value.Annuity? then None
    else if s.beginning.None? || prev.value.a.ending.None? then None
    else Some(s.beginning.value - prev.value.a.ending.value)
  }

  /** Continuity and the gap agree: whenever the gap is defined, so is continuity, and the chain
      holds exactly when the gap is under a cent, that is zero; continuity is only defined
      without a gap for a first statement. */
  lemma ChainGapAgrees(history: seq<Statement>, s: AnnuityStatement)
    ensures ChainGap(history, s).Some? ==>
      ChainsWithPrevious(history, s) == Some(ChainGap(history, s).value == 0)
    ensures ChainsWithPrevious(history, s).Some? && ChainGap(history, s).None? ==>
      Previous(history, s.date).None? && ChainsWithPrevious(history, s) == Some(true)
  {
  }

  // ---------------------------------------------------------------------------------
  // get_statement_gaps

  datatype Gap = Gap(statementDate: int, previousDate: int, gapAmount: int, previousEnding: int, currentBeginning: int)

  /** Stored annuity statements have both values: the columns are NOT NULL. */
  predicate Persisted(history: seq<Statement>) {
    forall i :: 0 <= i < |history| && history[i].Annuity? ==>
      history[i].a.beginning.Some? && history[i].a.ending.Some?
  }

  /** The gap recorded for one adjacent pair, if any: both annuity statements, and the current
      beginning at least a cent away from the previous ending. */
  function PairGap(prev: Statement, curr: Statement): (gs: seq<Gap>)
    requires prev.Annuity? ==> prev.a.ending.Some?
    requires curr.Annuity? ==> curr.a.beginning.Some?
    ensures |gs| <= 1
    ensures gs != [] ==> prev.Annuity? && curr.Annuity?
    ensures gs != [] ==> gs[0].gapAmount != 0 && gs[0].gapAmount == gs[0].currentBeginning - gs[0].previousEnding
    ensures gs != [] ==> gs[0].statementDate == curr.a.date && gs[0].previousDate == prev.a.date
    ensures gs != [] ==> gs[0].previousEnding == prev.a.ending.value && gs[0].currentBeginning == curr.a.beginning.value
    ensures prev.Annuity? && curr.Annuity? ==> (gs != [] <==> curr.a.beginning.value != prev.a.ending.value)
  {
    if !prev.Annuity? || !curr.Annuity? then []
    else
      var gap := curr.a.beginning.value - prev.a.ending.value;
      if Abs(gap) >= 1 then [Gap(curr.a.date, prev.a.date, gap, prev.a.ending.value, curr.a.beginning.value)]
      else []
  }

  /** The gaps of a history walked pair by pair. */
  function Gaps(history: seq<Statement>): (gs: seq<Gap>)
    requires Persisted(history)
  {
    if |history| < 2 then []
    else Gaps(history[..|history| - 1]) + PairGap(history[|history| - 2], history[|history| - 1])
  }

  /** `get_statement_gaps` over the statements in date order. */
  method GetStatementGaps(statements: seq<Statement>) returns (gaps: seq<Gap>)
    requires Persisted(statements)
    ensures gaps == Gaps(statements)
  {
    gaps := [];
    var i := 1;
    while i < |statements|
      invariant |statements| == 0 || 1 <= i <= |statements|
      invariant |statements| > 0 ==> gaps == Gaps(statements[..i])
      invariant |statements| == 0 ==> gaps == []
    {
      var curr := statements[i];
      var prev := statements[i - 1];
      assert statements[..i + 1][..i] == statements[..i];
      if curr.Annuity? && prev.Annuity? {
        var gap := curr.a.beginning.value - prev.a.ending.value;
        if Abs(gap) >= 1 {
          gaps := gaps + [Gap(curr.a.date, prev.a.date, gap, prev.a.ending.value, curr.a.beginning.value)];
        }
      }
      i := i + 1;
    }
    assert |statements| > 0 ==> statements[..i] == statements;
  }

  /** A gap is recorded exactly for each adjacent pair that has one: every recorded gap is some
      pair's gap, and every pair's gap is recorded. */
  lemma GapsArePairs(history: seq<Statement>)
    requires Persisted(history)
    ensures forall g :: g in Gaps(history) <==>
      exists i :: 1 <= i < |history| && PairGap(history[i - 1], history[i]) == [g]
  {
    GapsFromPairs(history);
    PairsInGaps(history);
  }

  lemma {:induction false} GapsFromPairs(history: seq<Statement>)
    requires Persisted(history)
    ensures forall g :: g in Gaps(history) ==>
      exists i :: 1 <= i < |history| && PairGap(history[i - 1], history[i]) == [g]
  {
    var n := |history|;
    if n >= 2 {
      var init := history[..n - 1];
      GapsFromPairs(init);
      var last := PairGap(history[n - 2], history[n - 1]);
      assert Gaps(history) == Gaps(init) + last;
      forall g | g in Gaps(history)
        ensures exists i :: 1 <= i < n && PairGap(history[i - 1], history[i]) == [g]
      {
        if g in Gaps(init) {
          var i :| 1 <= i < n - 1 && PairGap(init[i - 1], init[i]) == [g];
          assert init[i - 1] == history[i - 1] && init[i] == history[i];
        } else {
          assert last == [g];
        }
      }
    }
  }

  lemma {:induction false} PairsInGaps(history: seq<Statement>)
    requires Persisted(history)
    ensures forall g, i :: 1 <= i < |history| && PairGap(history[i - 1], history[i]) == [g] ==> g in Gaps(history)
  {
    var n := |history|;
    if n >= 2 {
      var init := history[..n - 1];
      PairsInGaps(init);
      assert Gaps(history) == Gaps(init) + PairGap(history[n - 2], history[n - 1]);
      forall g, i | 1 <= i < n && PairGap(history[i - 1], history[i]) == [g]
        ensures g in Gaps(history)
      {
        if i < n - 1 {
          assert init[i - 1] == history[i - 1] && init[i] == history[i];
          assert g in Gaps(init);
        }
      }
    }
  }

  lemma {:induction false} GapsAtMostPairs(history: seq<Statement>)
    requires Persisted(history) && |history| >= 1
    ensures |Gaps(history)| <= |history| - 1
  {
    if |history| >= 2 {
      GapsAtMostPairs(history[..|history| - 1]);
    }
  }

  predicate SortedByDate(history: seq<Statement>) {
    forall i, j :: 0 <= i < j < |history| ==> DateOf(history[i]) <= DateOf(history[j])
  }

  /** Over a date-ordered history every gap lies between its previous date and its date, and
      gaps come out in date order. */
  lemma {:induction false} GapsInDateOrder(history: seq<Statement>)
    requires Persisted(history) && SortedByDate(history)
    ensures forall k :: 0 <= k < |Gaps(history)| ==> Gaps(history)[k].previousDate <= Gaps(history)[k].statementDate
    ensures forall k, l :: 0 <= k < l < |Gaps(history)| ==> Gaps(history)[k].statementDate <= Gaps(history)[l].statementDate
    ensures |history| >= 1 ==> forall k :: 0 <= k < |Gaps(history)| ==> Gaps(history)[k].statementDate <= DateOf(history[|history| - 1])
  {
    if |history| >= 2 {
      var init := history[..|history| - 1];
      GapsInDateOrder(init);
      var n := |history|;
      var tail := PairGap(history[n - 2], history[n - 1]);
      assert Gaps(history) == Gaps(init) + tail;
      assert DateOf(init[|init| - 1]) <= DateOf(history[n - 1]);
    }
  }

  predicate StrictlyIncreasing(history: seq<Statement>) {
    forall i, j :: 0 <= i < j < |history| ==> DateOf(history[i]) < DateOf(history[j])
  }

  /** With distinct dates in order, the predecessor of the i-th statement is the one before it. */
  lemma PreviousIsPredecessor(history: seq<Statement>, i: int)
    requires StrictlyIncreasing(history) && 0 <= i < |history|
    ensures Previous(history, DateOf(history[i])) == if i == 0 then None else Some(history[i - 1])
  {
    var p := Previous(history, DateOf(history[i]));
    if i > 0 {
      assert DateOf(history[i - 1]) <= DateOf(p.value);
      var k :| 0 <= k < |history| && history[k] == p.value;
      assert k == i - 1;
    }
  }

  /** The audit and `chains_with_previous` agree: with distinct dates in order, the pair ending
      at an annuity statement is recorded as a gap exactly when that statement does not chain
      with its predecessor. */
  lemma GapIffNotChained(history: seq<Statement>, i: int)
    requires Persisted(history) && StrictlyIncreasing(history)
    requires 1 <= i < |history| && history[i].Annuity? && history[i - 1].Annuity?
    ensures PairGap(history[i - 1], history[i]) != [] <==> ChainsWithPrevious(history, history[i].a) == Some(false)
  {
    PreviousIsPredecessor(history, i);
  }

  // ---------------------------------------------------------------------------------
  // current_value

  /** The statement with the greatest date (the first such in the history), if any. */
  function Latest(history: seq<Statement>): (l: Option<Statement>)
    ensures l.None? <==> history == []
    ensures l.Some? ==> l.value in history && forall s :: s in history ==> DateOf(s) <= DateOf(l.value)
  {
    if history == [] then None
    else
      var rest := Latest(history[1..]);
      assert forall s :: s in history ==> s == history[0] || s in history[1..];
      if rest.None? || DateOf(rest.value) <= DateOf(history[0]) then Some(history[0]) else rest
  }

  /** `Annuity.current_value`: the latest statement's ending value when it is an annuity
      statement, otherwise premiums - withdrawals - tax withholding + net change over the
      annuity's transactions. */
  function CurrentValue(history: seq<Statement>, transactions: seq<Transaction>): (v: int)
    requires Persisted(history)
    ensures Latest(history).Some? && Latest(history).value.Annuity? ==> Some(v) == Latest(history).value.a.ending
  {
    var latest := Latest(history);
    if latest.Some? && latest.value.Annuity? then
      assert latest.value in history;
      latest.value.a.ending.value
    else ActivityTotal(transactions)
  }

  /** Without an annuity statement to go by, the current value is the running total of the
      transactions under the sign rule the value series uses. */
  lemma FallbackIsRunningTotal(history: seq<Statement>, transactions: seq<Transaction>)
    requires Persisted(history)
    requires Latest(history).None? || Latest(history).value.Other?
    ensures CurrentValue(history, transactions) == Total(transactions)
  {
    ActivityTotalIsTotal(transactions);
  }
}
