/** The Valic/Corebridge parser (ValicStatementParser): the Value Summary figures, employer
    contributions as premiums, and no withdrawal or tax figures at all. */
module Valic {
  import opened Wrappers
  import opened Currency
  import opened Dates
  import opened Statement
  import opened Recovery
  import opened Validation

  /** `_parse_account_info`: the Account Number is the policy number. */
  function AccountInfo(m: Matches, d: StatementData): (e: StatementData)
    ensures e == d.(policyNumber := e.policyNumber)
    ensures e.policyNumber == (if ValicAccountNumber in m.ids then Some(m.ids[ValicAccountNumber]) else d.policyNumber)
  {
    d.(policyNumber := Or(Id(m, ValicAccountNumber), d.policyNumber))
  }

  /** `_parse_value_summary`: balances when found; premiums from employer contributions or 0;
      net change plain, else parenthesised and negated; withdrawals and tax withholding 0. */
  function ValueSummary(m: Matches, d: StatementData): (e: StatementData)
    ensures e == d.(beginning := e.beginning, ending := e.ending, premiums := e.premiums,
      withdrawals := e.withdrawals, taxWithholding := e.taxWithholding, netChange := e.netChange)
    ensures e.premiums.Some? && e.withdrawals == Some(0) && e.taxWithholding == Some(0)
    ensures e.beginning == (if ValicBeginning in m.amounts then ParseCurrency(m.amounts[ValicBeginning]) else d.beginning)
    ensures e.ending == (if ValicEnding in m.amounts then ParseCurrency(m.amounts[ValicEnding]) else d.ending)
    ensures e.premiums == (if ValicContributions in m.amounts then ParseCurrency(m.amounts[ValicContributions]) else Some(0))
  {
    d.(beginning := Or(Amount(m, ValicBeginning), d.beginning),
       ending := Or(Amount(m, ValicEnding), d.ending),
       premiums := Or(Amount(m, ValicContributions), Some(0)),
       netChange := Or(Or(Amount(m, ValicNetChange), Negated(Amount(m, ValicNetChangeNegative))), d.netChange),
       withdrawals := Some(0),
       taxWithholding := Some(0))
  }

  /** The three steps in `parse`'s order on the matches of the chosen text. */
  function Fields(m: Matches, d: StatementData): (r: Result<StatementData, ParseError>)
    ensures r.Err? ==> r.error == BadDate
  {
    var dated := PeriodPhrase(m, ValicPeriod, AccountInfo(m, d));
    if dated.Err? then dated else Ok(ValueSummary(m, dated.value))
  }

  function Parsed(doc: Document, scan: string -> Matches, d: StatementData): (r: Result<StatementData, ParseError>)
    ensures SequentialText(doc).Err? ==> r == Err(NoUsableText)
    ensures SequentialText(doc).Ok? ==> r == Fields(scan(SequentialText(doc).value), d)
  {
    var text := SequentialText(doc);
    if text.Err? then Err(text.error) else Fields(scan(text.value), d)
  }

  class ValicParser {
    const doc: Document
    var data: StatementData

    constructor(doc: Document)
      ensures this.doc == doc && data == Empty
    {
      this.doc := doc;
      data := Empty;
    }

    method ParsePeriodDates(m: Matches) returns (ok: bool)
      modifies this
      ensures ok <==> PeriodPhrase(m, ValicPeriod, old(data)).Ok?
      ensures ok ==> data == PeriodPhrase(m, ValicPeriod, old(data)).value
    {
      if ValicPeriod in m.periods {
        var (startText, endText) := m.periods[ValicPeriod];
        var start := ParseLongDate(startText);
        if start.None? { return false; }
        data := data.(periodStart := start);
        var end := ParseLongDate(endText);
        if end.None? { return false; }
        data := data.(periodEnd := end);
        data := data.(statementDate := data.periodEnd);
      }
      return true;
    }

    method ParseAccountInfo(m: Matches)
      modifies this
      ensures data == AccountInfo(m, old(data))
    {
      if ValicAccountNumber in m.ids {
        data := data.(policyNumber := Some(m.ids[ValicAccountNumber]));
      }
    }

    method ParseValueSummary(m: Matches)
      modifies this
      ensures data == ValueSummary(m, old(data))
    {
      if ValicBeginning in m.amounts {
        data := data.(beginning := Some(Cents(m.amounts[ValicBeginning])));
      }
      if ValicEnding in m.amounts {
        data := data.(ending := Some(Cents(m.amounts[ValicEnding])));
      }
      if ValicContributions in m.amounts {
        data := data.(premiums := Some(Cents(m.amounts[ValicContributions])));
      } else {
        data := data.(premiums := Some(0));
      }
      if ValicNetChange in m.amounts {
        data := data.(netChange := Some(Cents(m.amounts[ValicNetChange])));
      } else if ValicNetChangeNegative in m.amounts {
        data := data.(netChange := Some(-(Cents(m.amounts[ValicNetChangeNegative]) as int)));
      }
      data := data.(withdrawals := Some(0));
      data := data.(taxWithholding := Some(0));
    }

    /** `parse`: Err stands for the ValueError it raises. Without usable text nothing is parsed. */
    method Parse(scan: string -> Matches) returns (r: Result<StatementData, ParseError>)
      modifies this
      ensures r == Parsed(doc, scan, old(data))
      ensures r.Ok? ==> data == r.value
      ensures r == Err(NoUsableText) ==> data == old(data)
    {
      var text := SequentialText(doc);
      if text.Err? {
        return Err(NoUsableText);
      }
      var m := scan(text.value);
      ParseAccountInfo(m);
      var ok := ParsePeriodDates(m);
      if !ok {
        return Err(BadDate);
      }
      ParseValueSummary(m);
      return Ok(data);
    }

    method Validate() returns (report: Report)
      ensures report == ValidationOf(data)
    {
      report := Validation.Validate(data);
    }
  }

  // ---------------------------------------------------------------------------------
  // What the Valic extraction promises.

  /** Net change: the plain figure when there is one; only otherwise the parenthesised figure,
      negated; otherwise the field keeps its value. */
  lemma NetChangePlainThenNegative(m: Matches, d: StatementData)
    ensures var nc := ValueSummary(m, d).netChange;
      && (ValicNetChange in m.amounts ==> nc == ParseCurrency(m.amounts[ValicNetChange]))
      && (ValicNetChange !in m.amounts && ValicNetChangeNegative in m.amounts ==>
            nc.Some? && nc.value <= 0 && ParseCurrency(m.amounts[ValicNetChangeNegative]) == Some(-nc.value))
      && (ValicNetChange !in m.amounts && ValicNetChangeNegative !in m.amounts ==> nc == d.netChange)
  {
  }

  /** Premiums, withdrawals and tax withholding are always set, so a successful Valic parse
      never reports them missing; premiums is 0 when employer contributions are absent. */
  lemma DefaultsNeverMissing(doc: Document, scan: string -> Matches, d: StatementData)
    requires Parsed(doc, scan, d).Ok?
    ensures var e := Parsed(doc, scan, d).value;
      var m := scan(SequentialText(doc).value);
      && e.withdrawals == Some(0) && e.taxWithholding == Some(0)
      && (ValicContributions !in m.amounts ==> e.premiums == Some(0))
      && forall issue :: issue in ValidationOf(e).errors ==>
           issue.field in {StatementDate, PeriodStart, PeriodEnd, BeginningValue, EndingValue, NetChange}
  {
    var m := scan(SequentialText(doc).value);
    assert Parsed(doc, scan, d) == Fields(m, d);
    FieldsDefaults(m, d);
    ActivityNeverMissing(Fields(m, d).value);
  }

  /** The defaults hold of every successful extraction from the matches. */
  lemma FieldsDefaults(m: Matches, d: StatementData)
    requires Fields(m, d).Ok?
    ensures var e := Fields(m, d).value;
      && e.premiums.Some? && e.withdrawals == Some(0) && e.taxWithholding == Some(0)
      && (ValicContributions !in m.amounts ==> e.premiums == Some(0))
  {
    var dated := PeriodPhrase(m, ValicPeriod, AccountInfo(m, d));
    assert Fields(m, d).value == ValueSummary(m, dated.value);
  }

  /** A fresh parser that succeeds reports a statement date equal to its period end (both
      absent when the period phrase is missing). */
  lemma ParsedStatementDate(doc: Document, scan: string -> Matches)
    ensures Parsed(doc, scan, Empty).Ok? ==> Parsed(doc, scan, Empty).value.statementDate == Parsed(doc, scan, Empty).value.periodEnd
  {
    if SequentialText(doc).Ok? {
      var m := scan(SequentialText(doc).value);
      assert AccountInfo(m, Empty).statementDate == AccountInfo(m, Empty).periodEnd;
    }
  }
}
